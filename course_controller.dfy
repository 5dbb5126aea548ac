/**
 * The catalogue handlers (src/controllers/course.controller.js): the listing's filter
 * and pagination, lesson normalisation, slug-collision suffixing, and the not-found
 * outcomes of reading, updating and deleting a course. Bodies arrive already parsed by
 * the course schemas; `slugify`, the `$regex` title match, `ObjectId.isValid`,
 * `Date.now()` and the ids the database assigns are parameters.
 */
module CourseController {
  import opened Wrappers
  import opened JsString
  import opened Collections
  import opened Ordering
  import opened Http
  import opened CourseModel
  import opened CourseSchema

  // ---------------------------------------------------------------------------
  // the listing filter

  /** The query string of `GET /courses`; `page` and `limit` already read as numbers. */
  datatype CourseQuery = CourseQuery(
    category: Option<string>,
    difficulty: Option<string>,
    price: Option<string>,
    search: Option<string>,
    page: Option<int>,
    limit: Option<int>)

  datatype PriceFilter = AnyPrice | Free | Paid

  /** The Mongo filter object the handler builds. */
  datatype Criteria = Criteria(
    category: Option<string>,
    difficulty: Option<string>,
    price: PriceFilter,
    titlePattern: Option<string>)

  /** The successive conditional assignments to `query`. */
  function CriteriaOf(q: CourseQuery): Criteria {
    var k0 := Criteria(None, None, AnyPrice, None);
    var k1 := if Truthy(q.category) then k0.(category := q.category) else k0;
    var k2 := if Truthy(q.difficulty) then k1.(difficulty := q.difficulty) else k1;
    var k3 := if q.price == Some("free") then k2.(price := Free) else k2;
    var k4 := if q.price == Some("paid") then k3.(price := Paid) else k3;
    if Truthy(q.search) then k4.(titlePattern := q.search) else k4
  }

  /**
   * A document matches the filter; `titleMatches(pattern, title)` stands for the case-insensitive
   * `$regex`. Mongoose casts the category condition through the path's `trim` setter.
   */
  predicate Matches(k: Criteria, c: Course, titleMatches: (string, string) -> bool) {
    && (k.category.Some? ==> c.category == Trim(k.category.value))
    && (k.difficulty.Some? ==> c.difficulty == k.difficulty.value)
    && (k.price == Free ==> c.price == 0)
    && (k.price == Paid ==> c.price > 0)
    && (k.titlePattern.Some? ==> titleMatches(k.titlePattern.value, c.title))
  }

  function Matching(catalogue: seq<Course>, k: Criteria, titleMatches: (string, string) -> bool): seq<Course> {
    Filter(catalogue, (c: Course) => Matches(k, c, titleMatches))
  }

  // ---------------------------------------------------------------------------
  // pagination arithmetic

  function Skip(page: int, limit: int): int {
    (page - 1) * limit
  }

  /** `Math.ceil(a / b)` for a non-zero divisor. */
  function CeilDiv(a: int, b: int): (q: int)
    requires b != 0
    ensures b > 0 ==> (q - 1) * b < a <= q * b
    ensures b < 0 ==> q * b <= a < (q - 1) * b
  {
    if b > 0 then
      var d, m := (-a) / b, (-a) % b;
      assert -a == b * d + m && 0 <= m < b;
      assert -d * b == a + m;
      -d
    else
      var d, m := a / (-b), a % (-b);
      assert a == (-b) * d + m && 0 <= m < -b;
      assert -d * b == a - m;
      -d
  }

  /** `Math.ceil(total / limit)`; a zero limit divides to `Infinity` or `NaN`, which has no integer value. */
  function TotalPages(total: nat, limit: int): Option<int> {
    if limit == 0 then None else Some(CeilDiv(total, limit))
  }

  function Abs(n: int): nat {
    if n < 0 then -n else n
  }

  /** `.skip(skip).limit(limit)`: a zero limit means no limit, and a negative one is read as its magnitude. */
  function Window<T>(s: seq<T>, skip: nat, limit: int): (r: seq<T>)
    ensures |r| == if skip >= |s| then 0 else if limit == 0 || |s| - skip <= Abs(limit) then |s| - skip else Abs(limit)
    ensures forall k :: 0 <= k < |r| ==> skip + k < |s| && r[k] == s[skip + k]
  {
    var rest := if skip <= |s| then s[skip..] else [];
    if limit == 0 || |rest| <= Abs(limit) then rest else rest[..Abs(limit)]
  }

  datatype Meta = Meta(total: nat, page: int, limit: int, totalPages: Option<int>)

  datatype Listing = Listing(data: seq<Course>, meta: Meta)

  /** `getCourses`. A negative skip is refused by the database. */
  function GetCourses(catalogue: seq<Course>, q: CourseQuery, titleMatches: (string, string) -> bool): (r: Reply<Listing>)
    ensures var page, limit := q.page.GetOr(1), q.limit.GetOr(10);
      && (r.Thrown? <==> Skip(page, limit) < 0)
      && !r.Fail?
      && (r.Ok? ==> r.status == 200)
      && (r.Ok? ==> r.body.meta == Meta(|Matching(catalogue, CriteriaOf(q), titleMatches)|, page, limit,
                                        TotalPages(|Matching(catalogue, CriteriaOf(q), titleMatches)|, limit)))
      && (r.Ok? ==> limit != 0 ==> |r.body.data| <= Abs(limit))
    ensures r.Ok? ==> forall i :: 0 <= i < |r.body.data| ==>
      r.body.data[i] in catalogue && Matches(CriteriaOf(q), r.body.data[i], titleMatches)
    ensures r.Ok? ==> NewestFirst(r.body.data, (c: Course) => c.createdAt)
    ensures var page, limit := q.page.GetOr(1), q.limit.GetOr(10);
      var sorted := SortNewestFirst(Matching(catalogue, CriteriaOf(q), titleMatches), (c: Course) => c.createdAt);
      r.Ok? ==> Skip(page, limit) >= 0 && r.body.data == Window(sorted, Skip(page, limit), limit)
  {
    var page, limit := q.page.GetOr(1), q.limit.GetOr(10);
    var k := CriteriaOf(q);
    var matched := Matching(catalogue, k, titleMatches);
    var sorted := SortNewestFirst(matched, (c: Course) => c.createdAt);
    var skip := Skip(page, limit);
    if skip < 0 then Thrown("Skip value must be non-negative")
    else
      var data := Window(sorted, skip, limit);
      PageOfMatches(catalogue, k, titleMatches, skip, limit);
      Ok(200, Listing(data, Meta(|matched|, page, limit, TotalPages(|matched|, limit))))
  }

  /** A window of the sorted matches holds only matching catalogue courses, still newest first. */
  lemma PageOfMatches(catalogue: seq<Course>, k: Criteria, titleMatches: (string, string) -> bool, skip: nat, limit: int)
    ensures var data := Window(SortNewestFirst(Matching(catalogue, k, titleMatches), (c: Course) => c.createdAt), skip, limit);
      && (forall i :: 0 <= i < |data| ==> data[i] in catalogue && Matches(k, data[i], titleMatches))
      && NewestFirst(data, (c: Course) => c.createdAt)
  {
    var matched := Matching(catalogue, k, titleMatches);
    var sorted := SortNewestFirst(matched, (c: Course) => c.createdAt);
    var data := Window(sorted, skip, limit);
    forall i | 0 <= i < |data| ensures data[i] in catalogue && Matches(k, data[i], titleMatches) {
      assert data[i] == sorted[skip + i];
      assert data[i] in multiset(sorted);
      assert data[i] in matched;
    }
    forall i, j | 0 <= i < j < |data| ensures data[i].createdAt >= data[j].createdAt {
      assert data[i] == sorted[skip + i] && data[j] == sorted[skip + j];
    }
  }

  // ---------------------------------------------------------------------------
  // properties of the listing

  /** What the filter object means, parameter by parameter. */
  lemma QueryMeaning(q: CourseQuery, c: Course, titleMatches: (string, string) -> bool)
    ensures Matches(CriteriaOf(q), c, titleMatches) <==>
      && (Truthy(q.category) ==> c.category == Trim(q.category.value))
      && (Truthy(q.difficulty) ==> c.difficulty == q.difficulty.value)
      && (q.price == Some("free") ==> c.price == 0)
      && (q.price == Some("paid") ==> c.price > 0)
      && (Truthy(q.search) ==> titleMatches(q.search.value, c.title))
  {
  }

  /** A `price` other than "free" or "paid" adds no price filter. */
  lemma OtherPriceIgnored(q: CourseQuery)
    requires q.price != Some("free") && q.price != Some("paid")
    ensures CriteriaOf(q) == CriteriaOf(q.(price := None))
    ensures CriteriaOf(q).price == AnyPrice
  {
  }

  /** An empty category or difficulty is falsy, so it filters nothing. */
  lemma EmptyParametersIgnored(q: CourseQuery)
    ensures CriteriaOf(q.(category := Some(""), difficulty := Some(""))) == CriteriaOf(q.(category := None, difficulty := None))
  {
  }

  /** Without parameters every course matches, and the first page holds the ten newest. */
  lemma DefaultListingIsTenNewest(catalogue: seq<Course>, titleMatches: (string, string) -> bool)
    ensures var r := GetCourses(catalogue, CourseQuery(None, None, None, None, None, None), titleMatches);
      var newest := SortNewestFirst(catalogue, (c: Course) => c.createdAt);
      && Matching(catalogue, CriteriaOf(CourseQuery(None, None, None, None, None, None)), titleMatches) == catalogue
      && r.Ok? && r.body.data == newest[..if |newest| < 10 then |newest| else 10]
      && r.body.meta.totalPages == Some(CeilDiv(|catalogue|, 10))
  {
    var k := CriteriaOf(CourseQuery(None, None, None, None, None, None));
    AllMatch(catalogue, k, titleMatches);
    SortKeepsLength(catalogue, (c: Course) => c.createdAt);
  }

  lemma {:induction false} AllMatch(catalogue: seq<Course>, k: Criteria, titleMatches: (string, string) -> bool)
    requires k == Criteria(None, None, AnyPrice, None)
    ensures Matching(catalogue, k, titleMatches) == catalogue
  {
    if catalogue != [] {
      AllMatch(catalogue[1..], k, titleMatches);
      assert catalogue == [catalogue[0]] + catalogue[1..];
    }
  }

  /** Page 1 skips nothing, and each further page skips one more `limit`. */
  lemma SkipSteps(page: int, limit: int)
    ensures Skip(1, limit) == 0
    ensures Skip(page + 1, limit) == Skip(page, limit) + limit
  {
  }

  /** With a positive limit, `totalPages` pages are just enough: they hold `total`, one fewer would not. */
  lemma TotalPagesJustEnough(total: nat, limit: int)
    requires limit > 0
    ensures TotalPages(total, limit).Some?
    ensures TotalPages(total, limit).value * limit >= total
    ensures (TotalPages(total, limit).value - 1) * limit < total
    ensures total == 0 <==> TotalPages(total, limit).value == 0
  {
  }

  /** With a positive limit, the `i`-th match sits on page `i / limit + 1`, which is within `totalPages`. */
  lemma EveryMatchOnItsPage<T>(s: seq<T>, limit: int, i: nat)
    requires limit > 0 && i < |s|
    ensures Skip(i / limit + 1, limit) >= 0
    ensures var w := Window(s, Skip(i / limit + 1, limit), limit);
      i % limit < |w| && w[i % limit] == s[i]
    ensures i / limit + 1 <= TotalPages(|s|, limit).value
  {
    var p, m := i / limit, i % limit;
    DivideIntoPages(i, limit);
    SkipToPage(p, limit);
    WindowHolds(s, p * limit, limit, m);
    PageWithinTotal(|s|, limit, p, m);
  }

  lemma DivideIntoPages(i: nat, limit: int)
    requires limit > 0
    ensures i / limit >= 0 && i == (i / limit) * limit + i % limit && 0 <= i % limit < limit
  {
  }

  lemma SkipToPage(p: nat, limit: int)
    requires limit > 0
    ensures Skip(p + 1, limit) == p * limit >= 0
  {
  }

  lemma WindowHolds<T>(s: seq<T>, skip: nat, limit: int, m: nat)
    requires 0 < limit && m < limit && skip + m < |s|
    ensures var w := Window(s, skip, limit); m < |w| && w[m] == s[skip + m]
  {
  }

  lemma PageWithinTotal(total: nat, limit: int, p: nat, m: nat)
    requires 0 < limit && p * limit + m < total
    ensures p + 1 <= TotalPages(total, limit).value
  {
    TotalPagesJustEnough(total, limit);
    LessByFactor(p, TotalPages(total, limit).value, limit);
  }

  lemma LessByFactor(a: int, b: int, l: int)
    requires l > 0 && a * l < b * l
    ensures a < b
  {
    assert (b - a) * l == b * l - a * l;
  }

  /** A page past `totalPages` is empty. */
  lemma PagePastTheEndIsEmpty<T>(s: seq<T>, limit: int, page: int)
    requires limit > 0 && page > TotalPages(|s|, limit).value
    ensures Skip(page, limit) >= |s|
    ensures Window(s, Skip(page, limit), limit) == []
  {
    TotalPagesJustEnough(|s|, limit);
    var q := TotalPages(|s|, limit).value;
    AtLeastByFactor(page - 1, q, limit);
    assert Skip(page, limit) == (page - 1) * limit;
  }

  lemma AtLeastByFactor(a: int, b: int, l: int)
    requires l > 0 && a >= b
    ensures a * l >= b * l
  {
    assert a * l - b * l == (a - b) * l;
  }

  // ---------------------------------------------------------------------------
  // lesson normalisation

  /** A lesson as the handler reads it: `order` may be absent. */
  datatype LessonInput = LessonInput(title: string, contentHtml: Option<string>, videoUrl: Option<string>, order: Option<int>)

  /** The object the `lessons.map` builds: exactly four keys. */
  datatype NormalLesson = NormalLesson(title: string, contentHtml: string, videoUrl: string, order: int)

  function InputOf(l: LessonBody): LessonInput {
    LessonInput(l.title, l.contentHtml, l.videoUrl, Some(l.order))
  }

  function InputsOf(ls: seq<LessonBody>): (r: seq<LessonInput>)
    ensures |r| == |ls|
    ensures forall i :: 0 <= i < |ls| ==> r[i] == InputOf(ls[i])
  {
    if ls == [] then [] else [InputOf(ls[0])] + InputsOf(ls[1..])
  }

  /** `l.contentHtml || ""` */
  function OrEmpty(s: Option<string>): string {
    if Truthy(s) then s.value else ""
  }

  /** `lessons.map((l, i) => ...)` from position `start` on: the default order is the 1-based index. */
  function NormalizeFrom(ls: seq<LessonInput>, start: nat): (r: seq<NormalLesson>)
    ensures |r| == |ls|
    ensures forall i :: 0 <= i < |ls| ==>
      && r[i].title == ls[i].title
      && r[i].contentHtml == OrEmpty(ls[i].contentHtml)
      && r[i].videoUrl == OrEmpty(ls[i].videoUrl)
      && r[i].order == (if ls[i].order.Some? then ls[i].order.value else start + i + 1)
  {
    if ls == [] then []
    else
      var l := ls[0];
      [NormalLesson(l.title, OrEmpty(l.contentHtml), OrEmpty(l.videoUrl), if l.order.Some? then l.order.value else start + 1)]
        + NormalizeFrom(ls[1..], start + 1)
  }

  function Normalize(ls: seq<LessonInput>): seq<NormalLesson> {
    NormalizeFrom(ls, 0)
  }

  /** Subdocuments get their `_id` from the database when stored. */
  function WithIds(ns: seq<NormalLesson>, ids: seq<string>): (r: seq<Lesson>)
    requires |ids| == |ns|
    ensures |r| == |ns|
    ensures forall i :: 0 <= i < |ns| ==>
      r[i] == Lesson(ids[i], ns[i].title, ns[i].contentHtml, ns[i].videoUrl, ns[i].order)
  {
    if ns == [] then []
    else [Lesson(ids[0], ns[0].title, ns[0].contentHtml, ns[0].videoUrl, ns[0].order)] + WithIds(ns[1..], ids[1..])
  }

  /** Lessons given without an order are numbered 1, 2, ... by position, so they pass `min: 1`. */
  lemma {:induction false} DefaultOrdersArePositions(ls: seq<LessonInput>)
    requires forall i :: 0 <= i < |ls| ==> ls[i].order.None?
    ensures forall i :: 0 <= i < |ls| ==> Normalize(ls)[i].order == i + 1 && Normalize(ls)[i].order >= 1
  {
  }

  /** A schema-checked lesson always carries its order, so the positional default never applies to it. */
  lemma ValidatedLessonsKeepTheirOrder(ls: seq<LessonBody>)
    ensures forall i :: 0 <= i < |ls| ==> Normalize(InputsOf(ls))[i].order == ls[i].order
    ensures forall i :: 0 <= i < |ls| ==> Normalize(InputsOf(ls))[i].title == ls[i].title
  {
  }

  /** Normalised lessons with a non-blank title and an order >= 1 pass the lesson validators, whatever their URL was absent or empty. */
  lemma NormalizedLessonValidates(n: NormalLesson, id: string)
    requires Trim(n.title) != "" && n.order >= 1 && n.videoUrl == ""
    ensures LessonValidates(SetLesson(Lesson(id, n.title, n.contentHtml, n.videoUrl, n.order)))
  {
  }

  // ---------------------------------------------------------------------------
  // slugs

  /** `slug = \`${slug}-${Date.now()}\`` when the slug is already taken. */
  function ChooseSlug(base: string, taken: bool, now: nat): string {
    if taken then base + "-" + Decimal(now) else base
  }

  /** `Course.findOne({ slug, _id: { $ne: except } })` finds something. */
  predicate SlugTaken(courses: seq<Course>, slug: string, except: Option<string>) {
    exists i :: 0 <= i < |courses| && courses[i].slug == slug && (except.None? || courses[i].id != except.value)
  }

  ghost predicate UniqueCourseIds(courses: seq<Course>) {
    forall i, j :: 0 <= i < j < |courses| ==> courses[i].id != courses[j].id
  }

  ghost predicate UniqueSlugs(courses: seq<Course>) {
    forall i, j :: 0 <= i < j < |courses| ==> courses[i].slug != courses[j].slug
  }

  ghost predicate AllWellFormed(courses: seq<Course>) {
    forall i :: 0 <= i < |courses| ==> WellFormed(courses[i])
  }

  /** A free slug is kept; a taken one gets "-" and the timestamp, which reads back from the suffix. */
  lemma SuffixedSlug(base: string, taken: bool, now: nat)
    ensures !taken ==> ChooseSlug(base, false, now) == base
    ensures taken ==> var s := ChooseSlug(base, true, now);
      && |s| > |base| + 1 && s[..|base|] == base && s[|base|] == '-'
      && DecimalValue(s[|base| + 1..]) == now
  {
    if taken {
      var s := ChooseSlug(base, true, now);
      assert s[|base| + 1..] == Decimal(now);
      DecimalRoundTrip(now);
    }
  }

  /** On update the course's own slug is no collision: with unique slugs, only another course could hold it. */
  lemma OwnSlugIsNoCollision(courses: seq<Course>, j: nat)
    requires j < |courses| && UniqueSlugs(courses)
    ensures !SlugTaken(courses, courses[j].slug, Some(courses[j].id))
    ensures SlugTaken(courses, courses[j].slug, None)
  {
  }

  // ---------------------------------------------------------------------------
  // building documents

  /** The document handed to `Course.create`, before the schema's setters. */
  function Draft(b: CreateBody, slug: string, id: string, lessonIds: seq<string>, now: int): Course
    requires |lessonIds| == |b.lessons.GetOr([])|
  {
    Course(id, b.title, slug, b.description, b.faculty, b.category, b.difficulty, b.price.GetOr(0),
           b.thumbnailUrl.GetOr(""), WithIds(Normalize(InputsOf(b.lessons.GetOr([]))), lessonIds), now)
  }

  /** What `createCourse` would store: the slug chosen against `courses`, then the setters. */
  function Created(courses: seq<Course>, b: CreateBody, slugify: string -> string, now: nat, id: string, lessonIds: seq<string>): Course
    requires |lessonIds| == |b.lessons.GetOr([])|
  {
    var candidate := slugify(b.title);
    var slug := ChooseSlug(candidate, SlugTaken(courses, SetSlug(candidate), None), now);
    Setters(Draft(b, slug, id, lessonIds, now))
  }

  /** The `$set` an update writes; absent paths are left alone. */
  datatype Patch = Patch(
    title: Option<string>,
    slug: Option<string>,
    description: Option<string>,
    category: Option<string>,
    difficulty: Option<string>,
    faculty: Option<string>,
    price: Option<int>,
    thumbnailUrl: Option<string>,
    lessons: Option<seq<Lesson>>)

  function PatchOf(courses: seq<Course>, id: string, b: UpdateBody, slugify: string -> string, now: nat, lessonIds: seq<string>): Patch
    requires |lessonIds| == |b.lessons.GetOr([])|
  {
    var slug :=
      if Truthy(b.title) then
        var candidate := slugify(b.title.value);
        Some(ChooseSlug(candidate, SlugTaken(courses, SetSlug(candidate), Some(id)), now))
      else None;
    var lessons :=
      if b.lessons.Some? then Some(WithIds(Normalize(InputsOf(b.lessons.value)), lessonIds)) else None;
    Patch(b.title, slug, b.description, b.category, b.difficulty, b.faculty, b.price, b.thumbnailUrl, lessons)
  }

  function SetIfGiven<T>(v: Option<T>, current: T): T {
    if v.Some? then v.value else current
  }

  /** A written string path with the `trim` setter. */
  function TrimIfGiven(v: Option<string>, current: string): (r: string)
    ensures Trim(current) == current ==> Trim(r) == r
  {
    if v.Some? then TrimIdempotent(v.value); Trim(v.value) else current
  }

  /** The written slug path, through its setters. */
  function SlugIfGiven(v: Option<string>, current: string): (r: string)
    ensures SetSlug(current) == current ==> SetSlug(r) == r
  {
    if v.Some? then SetSlugIdempotent(v.value); SetSlug(v.value) else current
  }

  /** The written lessons path, through the lesson setters. */
  function LessonsIfGiven(v: Option<seq<Lesson>>, current: seq<Lesson>): (r: seq<Lesson>)
    ensures SetLessons(current) == current ==> SetLessons(r) == r
  {
    if v.Some? then SetLessonsIdempotent(v.value); SetLessons(v.value) else current
  }

  /** The document after the `$set`, with the setters applied to the written paths. */
  function Apply(c: Course, p: Patch): Course {
    c.(title := TrimIfGiven(p.title, c.title),
       slug := SlugIfGiven(p.slug, c.slug),
       description := TrimIfGiven(p.description, c.description),
       category := TrimIfGiven(p.category, c.category),
       difficulty := SetIfGiven(p.difficulty, c.difficulty),
       faculty := TrimIfGiven(p.faculty, c.faculty),
       price := SetIfGiven(p.price, c.price),
       thumbnailUrl := SetIfGiven(p.thumbnailUrl, c.thumbnailUrl),
       lessons := LessonsIfGiven(p.lessons, c.lessons))
  }

  /** `runValidators`: the validators of the written paths only, on their set values. */
  predicate PatchValidates(p: Patch) {
    && (p.title.Some? ==> Trim(p.title.value) != "")
    && (p.slug.Some? ==> SetSlug(p.slug.value) != "")
    && (p.description.Some? ==> Trim(p.description.value) != "")
    && (p.category.Some? ==> Trim(p.category.value) != "")
    && (p.difficulty.Some? ==> p.difficulty.value in CourseModel.Difficulties)
    && (p.faculty.Some? ==> Trim(p.faculty.value) != "")
    && (p.price.Some? ==> p.price.value >= 0)
    && (p.lessons.Some? ==> forall i :: 0 <= i < |p.lessons.value| ==> LessonValidates(SetLesson(p.lessons.value[i])))
  }

  /** A stored document that takes a validated patch is still a well-formed document. */
  lemma PatchKeepsWellFormed(c: Course, p: Patch)
    requires WellFormed(c) && PatchValidates(p)
    ensures WellFormed(Apply(c, p))
  {
    var u := Apply(c, p);
    assert Setters(u) == u;
    assert Validates(u) by {
      if p.lessons.Some? {
        assert forall i :: 0 <= i < |u.lessons| ==> u.lessons[i] == SetLesson(p.lessons.value[i]);
      }
    }
  }

  /** The id, the creation time and every path the patch leaves out are unchanged. */
  lemma PatchTouchesOnlyGivenPaths(c: Course, p: Patch)
    ensures var u := Apply(c, p);
      && u.id == c.id && u.createdAt == c.createdAt
      && (p.title.None? ==> u.title == c.title)
      && (p.slug.None? ==> u.slug == c.slug)
      && (p.description.None? ==> u.description == c.description)
      && (p.category.None? ==> u.category == c.category)
      && (p.difficulty.None? ==> u.difficulty == c.difficulty)
      && (p.faculty.None? ==> u.faculty == c.faculty)
      && (p.thumbnailUrl.None? ==> u.thumbnailUrl == c.thumbnailUrl)
      && (p.price.None? ==> u.price == c.price)
      && (p.price.Some? ==> u.price == p.price.value)
      && (p.lessons.None? ==> u.lessons == c.lessons)
  {
  }

  /** An empty update body writes nothing, so a stored document comes back unchanged. */
  lemma EmptyUpdateChangesNothing(courses: seq<Course>, c: Course, id: string, slugify: string -> string, now: nat)
    requires WellFormed(c)
    ensures var p := PatchOf(courses, id, UpdateBody(None, None, None, None, None, None, None, None), slugify, now, []);
      PatchValidates(p) && Apply(c, p) == c
  {
  }

  /** An update re-slugs only for a truthy title; an empty title is written, and fails `required`. */
  lemma EmptyTitleUpdateRejected(courses: seq<Course>, id: string, b: UpdateBody, slugify: string -> string, now: nat, lessonIds: seq<string>)
    requires b.title == Some("") && |lessonIds| == |b.lessons.GetOr([])|
    ensures PatchOf(courses, id, b, slugify, now, lessonIds).slug.None?
    ensures !PatchValidates(PatchOf(courses, id, b, slugify, now, lessonIds))
  {
  }

  /** A negative price passes the update schema but not the model's `min: 0`. */
  lemma NegativePriceUpdateRejected(courses: seq<Course>, id: string, b: UpdateBody, slugify: string -> string, now: nat, lessonIds: seq<string>)
    requires b.price.Some? && b.price.value < 0 && |lessonIds| == |b.lessons.GetOr([])|
    ensures !PatchValidates(PatchOf(courses, id, b, slugify, now, lessonIds))
  {
  }

  // ---------------------------------------------------------------------------
  // reading one course

  /** `getCourseById`: a malformed id and an unknown id both give 404. */
  function GetCourseById(catalogue: seq<Course>, id: string, isValidObjectId: string -> bool): (r: Reply<Course>)
    ensures !isValidObjectId(id) ==> r == Fail(404, "Course not found")
    ensures r.Ok? <==> isValidObjectId(id) && exists i :: 0 <= i < |catalogue| && catalogue[i].id == id
    ensures r.Ok? ==> r.status == 200 && r.body.id == id && r.body in catalogue
    ensures !r.Ok? ==> r == Fail(404, "Course not found")
  {
    if !isValidObjectId(id) then Fail(404, "Course not found")
    else match FindCourse(catalogue, Some(id))
      case None => Fail(404, "Course not found")
      case Some(c) => Ok(200, c)
  }

  // ---------------------------------------------------------------------------
  // the catalogue store

  class CourseStore {
    var courses: seq<Course>

    ghost predicate Valid()
      reads this
    {
      && UniqueCourseIds(courses)
      && UniqueSlugs(courses)
      && AllWellFormed(courses)
    }

    constructor ()
      ensures Valid() && courses == []
    {
      courses := [];
    }

    /**
     * `createCourse`: slug choice, lesson normalisation, then `Course.create`, which runs the
     * setters and validators and is refused by the unique slug index. Both refusals are
     * errors with no status of their own.
     */
    method CreateCourse(b: CreateBody, slugify: string -> string, now: nat, id: string, lessonIds: seq<string>)
      returns (r: Reply<Course>)
      requires Valid()
      requires CourseIndex(courses, id).None?
      requires |lessonIds| == |b.lessons.GetOr([])|
      modifies this
      ensures Valid()
      ensures var c := Created(old(courses), b, slugify, now, id, lessonIds);
        && (r.Ok? <==> Validates(c) && !SlugTaken(old(courses), c.slug, None))
        && (r.Ok? ==> r == Ok(201, c) && courses == old(courses) + [c])
        && (!r.Ok? ==> r.Thrown? && courses == old(courses))
    {
      var candidate := slugify(b.title);
      var slug := candidate;
      if SlugTaken(courses, SetSlug(candidate), None) {
        slug := candidate + "-" + Decimal(now);
      }
      var c := Setters(Draft(b, slug, id, lessonIds, now));
      if !Validates(c) {
        return Thrown("Course validation failed");
      }
      if SlugTaken(courses, c.slug, None) {
        return Thrown("E11000 duplicate key error");
      }
      SetThenValidateIsWellFormed(Draft(b, slug, id, lessonIds, now));
      AppendKeepsUnique(courses, c);
      AppendKeepsWellFormed(courses, c);
      courses := courses + [c];
      r := Ok(201, c);
    }

    /**
     * `updateCourse`: the slug and lessons are rebuilt, the validators of the written paths
     * run before the lookup, then an unknown id gives 404. Lessons replaced by an update get
     * fresh `_id`s.
     */
    method UpdateCourse(id: string, b: UpdateBody, slugify: string -> string, now: nat, lessonIds: seq<string>)
      returns (r: Reply<Course>)
      requires Valid()
      requires |lessonIds| == |b.lessons.GetOr([])|
      modifies this
      ensures Valid()
      ensures var p := PatchOf(old(courses), id, b, slugify, now, lessonIds);
        && (!PatchValidates(p) ==> r.Thrown? && courses == old(courses))
        && (PatchValidates(p) && CourseIndex(old(courses), id).None? ==>
              r == Fail(404, "Course not found") && courses == old(courses))
        && (r.Ok? <==>
              PatchValidates(p) && CourseIndex(old(courses), id).Some?
              && !SlugTaken(old(courses), Apply(old(courses)[CourseIndex(old(courses), id).value], p).slug, Some(id)))
        && (r.Ok? ==>
              PatchValidates(p) && CourseIndex(old(courses), id).Some?
              && var i := CourseIndex(old(courses), id).value;
              r == Ok(200, Apply(old(courses)[i], p)) && courses == old(courses)[i := Apply(old(courses)[i], p)])
        && (!r.Ok? ==> courses == old(courses))
    {
      var p := PatchOf(courses, id, b, slugify, now, lessonIds);
      if !PatchValidates(p) {
        return Thrown("Validation failed");
      }
      var found := CourseIndex(courses, id);
      if found.None? {
        return Fail(404, "Course not found");
      }
      var i := found.value;
      var u := Apply(courses[i], p);
      if SlugTaken(courses, u.slug, Some(id)) {
        return Thrown("E11000 duplicate key error");
      }
      PatchKeepsWellFormed(courses[i], p);
      ReplaceKeepsUnique(courses, i, u);
      ReplaceKeepsWellFormed(courses, i, u);
      courses := courses[i := u];
      r := Ok(200, u);
    }

    /** `deleteCourse`: 404 for an unknown id; enrollments of a deleted course are left in place. */
    method DeleteCourse(id: string) returns (r: Reply<string>)
      requires Valid()
      modifies this
      ensures Valid()
      ensures CourseIndex(old(courses), id).None? ==> r == Fail(404, "Course not found") && courses == old(courses)
      ensures CourseIndex(old(courses), id).Some? ==>
        var i := CourseIndex(old(courses), id).value;
        r == Ok(200, "Course deleted successfully") && courses == RemoveAt(old(courses), i)
      ensures FindCourse(courses, Some(id)).None?
    {
      var found := CourseIndex(courses, id);
      if found.None? {
        return Fail(404, "Course not found");
      }
      var i := found.value;
      RemoveKeepsUnique(courses, i);
      RemoveKeepsWellFormed(courses, i);
      courses := RemoveAt(courses, i);
      r := Ok(200, "Course deleted successfully");
    }
  }

  // ---------------------------------------------------------------------------
  // the store's invariant

  lemma AppendKeepsUnique(courses: seq<Course>, c: Course)
    requires UniqueCourseIds(courses) && UniqueSlugs(courses)
    requires CourseIndex(courses, c.id).None? && !SlugTaken(courses, c.slug, None)
    ensures UniqueCourseIds(courses + [c]) && UniqueSlugs(courses + [c])
  {
    var s := courses + [c];
    forall i, j | 0 <= i < j < |s| ensures s[i].id != s[j].id && s[i].slug != s[j].slug {
      if j == |courses| {
        assert s[i] == courses[i];
      }
    }
  }

  lemma AppendKeepsWellFormed(courses: seq<Course>, c: Course)
    requires AllWellFormed(courses) && WellFormed(c)
    ensures AllWellFormed(courses + [c])
  {
    var s := courses + [c];
    forall i | 0 <= i < |s| ensures WellFormed(s[i]) {
      if i < |courses| {
        assert s[i] == courses[i];
      }
    }
  }

  lemma ReplaceKeepsUnique(courses: seq<Course>, k: nat, u: Course)
    requires k < |courses|
    requires UniqueCourseIds(courses) && UniqueSlugs(courses)
    requires u.id == courses[k].id && !SlugTaken(courses, u.slug, Some(u.id))
    ensures UniqueCourseIds(courses[k := u]) && UniqueSlugs(courses[k := u])
  {
    var s := courses[k := u];
    forall i, j | 0 <= i < j < |s| ensures s[i].id != s[j].id && s[i].slug != s[j].slug {
      if i == k {
        assert courses[j].id != u.id;
      } else if j == k {
        assert courses[i].id != u.id;
      }
    }
  }

  lemma ReplaceKeepsWellFormed(courses: seq<Course>, k: nat, u: Course)
    requires k < |courses| && AllWellFormed(courses) && WellFormed(u)
    ensures AllWellFormed(courses[k := u])
  {
    var s := courses[k := u];
    forall i | 0 <= i < |s| ensures WellFormed(s[i]) {
      if i != k {
        assert s[i] == courses[i];
      }
    }
  }

  /** `findByIdAndDelete`: the sequence without position `k`. */
  function RemoveAt<T>(s: seq<T>, k: nat): (r: seq<T>)
    requires k < |s|
    ensures |r| == |s| - 1
    ensures forall i :: 0 <= i < k ==> r[i] == s[i]
    ensures forall i :: k <= i < |r| ==> r[i] == s[i + 1]
  {
    s[..k] + s[k + 1..]
  }

  lemma RemoveKeepsUnique(courses: seq<Course>, k: nat)
    requires k < |courses|
    requires UniqueCourseIds(courses) && UniqueSlugs(courses)
    ensures UniqueCourseIds(RemoveAt(courses, k)) && UniqueSlugs(RemoveAt(courses, k))
    ensures forall i :: 0 <= i < |RemoveAt(courses, k)| ==> RemoveAt(courses, k)[i].id != courses[k].id
  {
    var s := RemoveAt(courses, k);
    forall i, j | 0 <= i < j < |s| ensures s[i].id != s[j].id && s[i].slug != s[j].slug {
      var i', j' := if i < k then i else i + 1, if j < k then j else j + 1;
      assert s[i] == courses[i'] && s[j] == courses[j'] && i' < j';
    }
    forall i | 0 <= i < |s| ensures s[i].id != courses[k].id {
      var i' := if i < k then i else i + 1;
      assert s[i] == courses[i'] && i' != k;
    }
  }

  lemma RemoveKeepsWellFormed(courses: seq<Course>, k: nat)
    requires k < |courses| && AllWellFormed(courses)
    ensures AllWellFormed(RemoveAt(courses, k))
  {
    var s := RemoveAt(courses, k);
    forall i | 0 <= i < |s| ensures WellFormed(s[i]) {
      assert s[i] == courses[if i < k then i else i + 1];
    }
  }
}
