/**
 * The API views. Each endpoint is specified by a function from the database
 * (and the request) to a Step: the database afterwards and the response. The
 * four viewset classes perform the state-changing endpoints on the store and
 * are proved to do what those functions say; the read-only endpoints
 * (querysets, enrollment status, lists) are functions of the database.
 *
 * As in the code: course writes are open to every instructor, not only the
 * course's own; lesson updates and deletes are open to everyone; creating a
 * lesson without an Instructor profile ends in an uncaught AttributeError;
 * every grade endpoint requires an Instructor profile.
 */
module Views {
  import opened Wrappers
  import opened Models
  import opened Responses
  import opened Permissions
  import opened Serializers
  import Store

  /** The value a partial update gives a field: the new one if present, else the current one. */
  function Patched<T>(current: T, update: Option<T>): (r: T)
    ensures update.Some? ==> r == update.value
    ensures update.None? ==> r == current
  {
    match update
    case None => current
    case Some(v) => v
  }

  // ===========================================================================
  // CourseViewSet (permission IsInstructorOrReadOnly; enroll, enrollment_status
  // and unenroll override it with IsAuthenticated)
  // ===========================================================================

  /** The writable fields of a course (`instructor` is read-only in CourseSerializer). */
  datatype CourseData = CourseData(title: string, description: string, startDate: Date, endDate: Date)

  /** A PUT carries every field; a PATCH only some. */
  datatype CoursePatch = CoursePatch(title: Option<string>, description: Option<string>,
                                     startDate: Option<Date>, endDate: Option<Date>)

  /** GET /courses/: every course, represented for the requester. */
  function ListCourses(db: Db, req: Requester): (r: Result<map<CourseId, CourseRepr>>)
    requires Valid(db)
    ensures r.Ok? && r.value.Keys == db.courses.Keys
    ensures forall c :: c in r.value ==> r.value[c] == CourseRepresentation(db, Some(req), c)
    ensures forall c :: c in r.value ==> r.value[c].id == c && r.value[c].isEnrolled == GetIsEnrolled(db, Some(req), c)
  {
    if !IsInstructorOrReadOnly(db, GET, req) then Err(Deny(req, NoPermission))
    else Ok(map c | c in db.courses :: CourseRepresentation(db, Some(req), c))
  }

  /** GET /courses/{pk}/. */
  function RetrieveCourse(db: Db, req: Requester, pk: CourseId): (r: Result<CourseRepr>)
    requires Valid(db)
    ensures r.Ok? <==> pk in db.courses
    ensures r.Err? ==> r.error == NotFound
    ensures r.Ok? ==> r.value == CourseRepresentation(db, Some(req), pk)
    ensures r.Ok? ==> r.value.id == pk && r.value.isEnrolled == GetIsEnrolled(db, Some(req), pk)
  {
    if !IsInstructorOrReadOnly(db, GET, req) then Err(Deny(req, NoPermission))
    else if pk !in db.courses then Err(NotFound)
    else Ok(CourseRepresentation(db, Some(req), pk))
  }

  /** POST /courses/: `perform_create` saves the course with the requester's own profile as instructor. */
  function CreateCourseStep(db: Db, req: Requester, data: CourseData, id: CourseId): (r: Step<CourseId>)
    requires Valid(db) && FreshId(db, id)
    ensures Valid(r.db)
    ensures r.result.Ok? <==> RoleOf(db, req).Some?
    ensures r.result.Err? ==> r.db == db && r.result.error == Deny(req, NoPermission)
    ensures r.result.Ok? ==> r.result.value == id && r.db.courses == db.courses[id := Course(
      data.title, data.description, data.startDate, data.endDate, RoleOf(db, req))]
    ensures r.db.users == db.users && r.db.instructors == db.instructors
    ensures r.db.enrollments == db.enrollments && r.db.lessons == db.lessons && r.db.grades == db.grades
  {
    if !IsInstructorOrReadOnly(db, POST, req) then Step(db, Err(Deny(req, NoPermission)))
    else
      match RoleOf(db, req)
      case None => Step(db, Err(ServerError))
      case Some(p) =>
        Step(AddCourse(db, id, Course(data.title, data.description, data.startDate, data.endDate, Some(p))), Ok(id))
  }

  /** PUT/PATCH /courses/{pk}/: no check that the requester owns the course. */
  function UpdateCourseStep(db: Db, req: Requester, pk: CourseId, patch: CoursePatch): (r: Step<CourseId>)
    requires Valid(db)
    ensures Valid(r.db)
    ensures r.result.Ok? <==> RoleOf(db, req).Some? && pk in db.courses
    ensures r.result.Err? ==> r.db == db
    ensures r.result == Err(NotFound) <==> RoleOf(db, req).Some? && pk !in db.courses
    ensures r.result.Ok? ==> r.result.value == pk && r.db.courses.Keys == db.courses.Keys
    ensures r.result.Ok? ==>
      && r.db.courses[pk].instructor == db.courses[pk].instructor
      && r.db.courses[pk].title == Patched(db.courses[pk].title, patch.title)
      && r.db.courses[pk].description == Patched(db.courses[pk].description, patch.description)
      && r.db.courses[pk].startDate == Patched(db.courses[pk].startDate, patch.startDate)
      && r.db.courses[pk].endDate == Patched(db.courses[pk].endDate, patch.endDate)
    ensures r.result.Ok? ==> forall c :: c in db.courses && c != pk ==> r.db.courses[c] == db.courses[c]
    ensures r.db.users == db.users && r.db.instructors == db.instructors
    ensures r.db.enrollments == db.enrollments && r.db.lessons == db.lessons && r.db.grades == db.grades
  {
    if !IsInstructorOrReadOnly(db, PUT, req) then Step(db, Err(Deny(req, NoPermission)))
    else if pk !in db.courses then Step(db, Err(NotFound))
    else
      var course := db.courses[pk];
      var updated := course.(title := Patched(course.title, patch.title),
                             description := Patched(course.description, patch.description),
                             startDate := Patched(course.startDate, patch.startDate),
                             endDate := Patched(course.endDate, patch.endDate));
      Step(SaveCourse(db, pk, updated), Ok(pk))
  }

  /** DELETE /courses/{pk}/: the course goes with its enrollments, their grades and its lessons. */
  function DestroyCourseStep(db: Db, req: Requester, pk: CourseId): (r: Step<CourseId>)
    requires Valid(db)
    ensures Valid(r.db)
    ensures r.result.Ok? <==> RoleOf(db, req).Some? && pk in db.courses
    ensures r.result == Err(NotFound) <==> RoleOf(db, req).Some? && pk !in db.courses
    ensures r.result.Err? ==> r.db == db
    ensures r.result.Ok? ==> r.db == DeleteCourse(db, pk)
  {
    if !IsInstructorOrReadOnly(db, DELETE, req) then Step(db, Err(Deny(req, NoPermission)))
    else if pk !in db.courses then Step(db, Err(NotFound))
    else Step(DeleteCourse(db, pk), Ok(pk))
  }

  /**
   * GET /courses/{pk}/enrollments/: the course with all of its enrollments. The
   * view builds the serializer without a context, so nothing shows as enrolled.
   */
  function CourseEnrollments(db: Db, req: Requester, pk: CourseId): (r: Result<CourseWithEnrollmentsRepr>)
    requires Valid(db)
    ensures r.Ok? <==> pk in db.courses
    ensures r.Err? ==> r.error == NotFound
    ensures r.Ok? ==> r.value == CourseWithEnrollmentsRepresentation(db, None, pk)
    ensures r.Ok? ==> r.value.course.id == pk && r.value.enrollments.Keys == EnrollmentsOfCourse(db, pk)
    ensures r.Ok? ==> !r.value.course.isEnrolled
    ensures r.Ok? ==> forall e :: e in r.value.enrollments ==> !r.value.enrollments[e].course.isEnrolled
  {
    if !IsInstructorOrReadOnly(db, GET, req) then Err(Deny(req, NoPermission))
    else if pk !in db.courses then Err(NotFound)
    else Ok(CourseWithEnrollmentsRepresentation(db, None, pk))
  }

  datatype EnrollStatus = Enrolled | AlreadyEnrolled

  /** The status code and `status` text of each enroll answer. */
  function EnrollResponse(s: EnrollStatus): (r: (int, string))
    ensures 200 <= r.0 < 300
    ensures r.0 == 201 <==> s == Enrolled
  {
    match s
    case Enrolled => (201, "enrolled")
    case AlreadyEnrolled => (200, "already enrolled")
  }

  /** POST /courses/{pk}/enroll/: `get_or_create` of the requester's enrollment. */
  function EnrollStep(db: Db, req: Requester, pk: CourseId, id: EnrollmentId, today: Date): (r: Step<EnrollStatus>)
    requires Valid(db) && WellFormed(db, req) && FreshId(db, id)
    ensures Valid(r.db)
    ensures r.result == Err(NotAuthenticated) <==> req.Anonymous?
    ensures r.result == Err(NotFound) <==> req.Authenticated? && pk !in db.courses
    ensures r.result == Ok(AlreadyEnrolled) <==> req.Authenticated? && pk in db.courses && IsEnrolledIn(db, req.id, pk)
    ensures r.result == Ok(Enrolled) <==> req.Authenticated? && pk in db.courses && !IsEnrolledIn(db, req.id, pk)
    ensures r.result != Ok(Enrolled) ==> r.db == db
    ensures r.result == Ok(Enrolled) ==> r.db == db.(enrollments := db.enrollments[id := Enrollment(req.id, pk, today)])
  {
    if !IsAuthenticated(req) then Step(db, Err(Deny(req, NoPermission)))
    else if pk !in db.courses then Step(db, Err(NotFound))
    else if EnrollmentOf(db.enrollments, req.id, pk).Some? then Step(db, Ok(AlreadyEnrolled))
    else Step(AddEnrollment(db, id, Enrollment(req.id, pk, today)).value, Ok(Enrolled))
  }

  /** The body of an enrollment_status answer. */
  datatype EnrollmentReport = EnrollmentReport(isEnrolled: bool, courseId: CourseId, studentId: UserId)

  /** GET /courses/{pk}/enrollment_status/. */
  function EnrollmentStatus(db: Db, req: Requester, pk: CourseId): (r: Result<EnrollmentReport>)
    requires Valid(db)
    ensures r.Ok? <==> req.Authenticated? && pk in db.courses
    ensures r.Err? ==> r.error == if req.Anonymous? then NotAuthenticated else NotFound
    ensures r.Ok? ==> r.value.courseId == pk && r.value.studentId == req.id
    ensures r.Ok? ==> (r.value.isEnrolled <==> EnrollmentOf(db.enrollments, req.id, pk).Some?)
    ensures r.Ok? ==> r.value.isEnrolled == GetIsEnrolled(db, Some(req), pk)
  {
    if !IsAuthenticated(req) then Err(Deny(req, NoPermission))
    else if pk !in db.courses then Err(NotFound)
    else
      IsEnrolledIffEnrollment(db, req.id, pk);
      Ok(EnrollmentReport(IsEnrolledIn(db, req.id, pk), pk, req.id))
  }

  datatype UnenrollStatus = Unenrolled | NotEnrolled

  /** The `detail` of the not-enrolled answer. */
  const NotEnrolledDetail := "You are not enrolled in this course."

  /** The status code and detail of each unenroll answer. */
  function UnenrollResponse(s: UnenrollStatus): (r: (int, string))
    ensures r.0 == 404 <==> s == NotEnrolled
    ensures s == Unenrolled ==> r == (204, "")
    ensures s == NotEnrolled ==> r.1 == NotEnrolledDetail
  {
    match s
    case Unenrolled => (204, "")
    case NotEnrolled => (404, NotEnrolledDetail)
  }

  /** POST /courses/{pk}/unenroll/: deletes the requester's enrollment, with its grades. */
  function UnenrollStep(db: Db, req: Requester, pk: CourseId): (r: Step<UnenrollStatus>)
    requires Valid(db) && WellFormed(db, req)
    ensures Valid(r.db)
    ensures r.result == Err(NotAuthenticated) <==> req.Anonymous?
    ensures r.result == Err(NotFound) <==> req.Authenticated? && pk !in db.courses
    ensures r.result == Ok(NotEnrolled) <==> req.Authenticated? && pk in db.courses && !IsEnrolledIn(db, req.id, pk)
    ensures r.result == Ok(Unenrolled) <==> req.Authenticated? && pk in db.courses && IsEnrolledIn(db, req.id, pk)
    ensures r.result != Ok(Unenrolled) ==> r.db == db
    ensures r.result == Ok(Unenrolled) ==>
      exists e :: (e in db.enrollments && db.enrollments[e].student == req.id &&
                   db.enrollments[e].course == pk && r.db == DeleteEnrollment(db, e))
  {
    if !IsAuthenticated(req) then Step(db, Err(Deny(req, NoPermission)))
    else if pk !in db.courses then Step(db, Err(NotFound))
    else
      match EnrollmentOf(db.enrollments, req.id, pk)
      case None => Step(db, Ok(NotEnrolled))
      case Some(e) => Step(DeleteEnrollment(db, e), Ok(Unenrolled))
  }

  // ===========================================================================
  // EnrollmentViewSet (permission IsAuthenticated)
  // ===========================================================================

  /** The payload's `student`: a required primary key of a stored user. */
  predicate StudentFieldValid(db: Db, student: Option<UserId>)
  {
    student.Some? && student.value in db.users
  }

  /**
   * POST /enrollments/: the payload's `student` must name a user, but the
   * saved enrollment is the requester's whatever it names; the course is
   * then looked up from the payload.
   */
  function CreateEnrollmentStep(db: Db, req: Requester, course: Option<CourseId>, student: Option<UserId>,
                                id: EnrollmentId, today: Date): (r: Step<EnrollmentId>)
    requires Valid(db) && WellFormed(db, req) && FreshId(db, id)
    ensures Valid(r.db)
    ensures r.result.Err? ==> r.db == db
    ensures r.result == Err(NotAuthenticated) <==> req.Anonymous?
    ensures r.result == Err(Invalid({"student"})) <==> req.Authenticated? && !StudentFieldValid(db, student)
    ensures r.result == Err(NotFound) <==>
      req.Authenticated? && StudentFieldValid(db, student) && (course.None? || course.value !in db.courses)
    ensures r.result == Err(IntegrityError) <==>
      && req.Authenticated? && StudentFieldValid(db, student) && course.Some? && course.value in db.courses
      && IsEnrolledIn(db, req.id, course.value)
    ensures r.result.Ok? <==>
      && req.Authenticated? && StudentFieldValid(db, student) && course.Some? && course.value in db.courses
      && !IsEnrolledIn(db, req.id, course.value)
    ensures r.result.Ok? ==> r.result.value == id && course.Some?
    ensures r.result.Ok? && course.Some? ==>
      r.db == db.(enrollments := db.enrollments[id := Enrollment(req.id, course.value, today)])
  {
    if !IsAuthenticated(req) then Step(db, Err(Deny(req, NoPermission)))
    else if !StudentFieldValid(db, student) then Step(db, Err(Invalid({"student"})))
    else if course.None? || course.value !in db.courses then Step(db, Err(NotFound))
    else
      match AddEnrollment(db, id, Enrollment(req.id, course.value, today))
      case None => Step(db, Err(IntegrityError))
      case Some(saved) => Step(saved, Ok(id))
  }

  /** `EnrollmentViewSet.get_queryset`: the requester's own enrollments. */
  function EnrollmentQueryset(db: Db, u: UserId): (r: set<EnrollmentId>)
    ensures r <= db.enrollments.Keys
    ensures forall e :: e in db.enrollments ==> (e in r <==> db.enrollments[e].student == u)
  {
    set e | e in db.enrollments && db.enrollments[e].student == u
  }

  /** GET /enrollments/: the requester's enrollments, each embedding its course. */
  function ListEnrollments(db: Db, req: Requester): (r: Result<map<EnrollmentId, EnrollmentRepr>>)
    requires Valid(db)
    ensures r.Ok? <==> req.Authenticated?
    ensures r.Err? ==> r.error == NotAuthenticated
    ensures r.Ok? ==> forall e :: e in r.value ==> e in db.enrollments && r.value[e].student == req.id
    ensures r.Ok? ==> forall e :: e in db.enrollments && db.enrollments[e].student == req.id ==> e in r.value
    ensures r.Ok? ==> forall e :: e in r.value ==> r.value[e] == EnrollmentRepresentation(db, Some(req), e)
    ensures r.Ok? ==> forall e :: e in r.value ==>
      r.value[e].course.id == db.enrollments[e].course && r.value[e].course.isEnrolled
  {
    if !IsAuthenticated(req) then Err(Deny(req, NoPermission))
    else Ok(map e | e in EnrollmentQueryset(db, req.id) :: EnrollmentRepresentation(db, Some(req), e))
  }

  // ===========================================================================
  // GradeViewSet (permissions IsAuthenticated, then IsInstructor)
  // ===========================================================================

  /** The PermissionDenied detail when an instructor grades outside their courses. */
  const GradeOutsideCourses := "You can only grade students in your courses"

  /** `permission_classes = [IsAuthenticated, IsInstructor]`, checked in order. */
  function GradePermission(db: Db, req: Requester): (r: Option<Error>)
    requires Valid(db)
    ensures r.None? <==> Permissions.IsInstructor(db, req)
    ensures r == Some(NotAuthenticated) <==> req.Anonymous?
    ensures r == Some(PermissionDenied(InstructorsOnly)) <==> req.Authenticated? && RoleOf(db, req).None?
  {
    if !IsAuthenticated(req) then Some(Deny(req, NoPermission))
    else if !Permissions.IsInstructor(db, req) then Some(Deny(req, InstructorsOnly))
    else None
  }

  /** The fields `GradeSerializer` validation refuses: `enrollment` must name a row, `grade` is required. */
  function GradeErrors(db: Db, enrollment: Option<EnrollmentId>, grade: Option<real>): (r: set<string>)
    ensures "enrollment" in r <==> enrollment.None? || enrollment.value !in db.enrollments
    ensures "grade" in r <==> grade.None?
    ensures r <= {"enrollment", "grade"}
  {
    (if enrollment.None? || enrollment.value !in db.enrollments then {"enrollment"} else {}) +
    (if grade.None? then {"grade"} else {})
  }

  /**
   * POST /grades/: after the permissions and validation, only the instructor
   * of the enrollment's course may grade it. Validation has already found the
   * enrollment, so the view's own not-found branch is never taken.
   */
  function CreateGradeStep(db: Db, req: Requester, enrollment: Option<EnrollmentId>, grade: Option<real>,
                           id: GradeId, today: Date): (r: Step<GradeId>)
    requires Valid(db) && FreshId(db, id)
    ensures Valid(r.db)
    ensures r.result.Err? ==> r.db == db
    ensures r.result != Err(NotFound)
    ensures r.result == Err(NotAuthenticated) <==> req.Anonymous?
    ensures r.result == Err(PermissionDenied(InstructorsOnly)) <==> req.Authenticated? && RoleOf(db, req).None?
    ensures r.result.Err? && r.result.error.Invalid? <==> RoleOf(db, req).Some? && GradeErrors(db, enrollment, grade) != {}
    ensures r.result.Err? && r.result.error.Invalid? ==> r.result.error.fields == GradeErrors(db, enrollment, grade)
    ensures r.result == Err(PermissionDenied(GradeOutsideCourses)) <==>
      && RoleOf(db, req).Some? && GradeErrors(db, enrollment, grade) == {}
      && db.courses[db.enrollments[enrollment.value].course].instructor != RoleOf(db, req)
    ensures r.result.Ok? <==>
      && RoleOf(db, req).Some? && GradeErrors(db, enrollment, grade) == {}
      && db.courses[db.enrollments[enrollment.value].course].instructor == RoleOf(db, req)
    ensures r.result.Ok? ==> r.result.value == id && enrollment.Some? && grade.Some?
    ensures r.result.Ok? && enrollment.Some? && grade.Some? ==>
      r.db == AddGrade(db, id, Grade(enrollment.value, grade.value, today))
  {
    match GradePermission(db, req)
    case Some(e) => Step(db, Err(e))
    case None =>
      var errors := GradeErrors(db, enrollment, grade);
      if errors != {} then Step(db, Err(Invalid(errors)))
      else if db.courses[db.enrollments[enrollment.value].course].instructor != RoleOf(db, req)
      then Step(db, Err(PermissionDenied(GradeOutsideCourses)))
      else Step(AddGrade(db, id, Grade(enrollment.value, grade.value, today)), Ok(id))
  }

  /** The courses whose instructor is `p`. */
  function CoursesOf(db: Db, p: InstructorId): set<CourseId>
  {
    set c | c in db.courses && db.courses[c].instructor == Some(p)
  }

  /** The enrollments in the courses `cs`. */
  function EnrollmentsIn(db: Db, cs: set<CourseId>): set<EnrollmentId>
  {
    set e | e in db.enrollments && db.enrollments[e].course in cs
  }

  /** The grades on the enrollments `es`. */
  function GradesOn(db: Db, es: set<EnrollmentId>): set<GradeId>
  {
    set g | g in db.grades && db.grades[g].enrollment in es
  }

  /**
   * `GradeViewSet.get_queryset`: an instructor's filter follows
   * enrollment → course → instructor; anyone else's, enrollment → student.
   */
  function GradeQueryset(db: Db, u: UserId): (r: set<GradeId>)
    requires Valid(db)
    ensures r <= db.grades.Keys
    ensures Models.IsInstructor(db, u) ==> forall g :: g in db.grades ==>
      (g in r <==> db.courses[db.enrollments[db.grades[g].enrollment].course].instructor == ProfileOf(db.instructors, u))
    ensures !Models.IsInstructor(db, u) ==> forall g :: g in db.grades ==>
      (g in r <==> db.enrollments[db.grades[g].enrollment].student == u)
  {
    match ProfileOf(db.instructors, u)
    case Some(p) => GradesOn(db, EnrollmentsIn(db, CoursesOf(db, p)))
    case None => GradesOn(db, EnrollmentQueryset(db, u))
  }

  /** GET /grades/: only instructors get past the permissions and see the queryset. */
  function ListGrades(db: Db, req: Requester): (r: Result<map<GradeId, Grade>>)
    requires Valid(db)
    ensures r.Ok? <==> Permissions.IsInstructor(db, req)
    ensures r.Err? ==> r.error == if req.Anonymous? then NotAuthenticated else PermissionDenied(InstructorsOnly)
    ensures r.Ok? ==> r.value.Keys == GradeQueryset(db, req.id)
    ensures r.Ok? ==> forall g :: g in r.value ==> r.value[g] == db.grades[g]
  {
    match GradePermission(db, req)
    case Some(e) => Err(e)
    case None => Ok(map g | g in GradeQueryset(db, req.id) :: db.grades[g])
  }

  // ===========================================================================
  // LessonViewSet (permission AllowAny), nested under /courses/{course_pk}/
  // ===========================================================================

  /** A new lesson's fields; an absent `order` takes the model default 0. */
  datatype LessonData = LessonData(title: string, content: string, order: Option<int>)

  datatype LessonPatch = LessonPatch(title: Option<string>, content: Option<string>, order: Option<int>)

  /** The PermissionDenied detail when a lesson is added to another instructor's course. */
  const LessonOutsideCourses := "You can only add lessons to your own courses"

  /** GET /courses/{course_pk}/lessons/: the course's lessons by ascending order, for anyone. */
  function ListLessons(db: Db, req: Requester, coursePk: CourseId): (r: Result<seq<LessonRepr>>)
    requires Valid(db)
    ensures r.Ok?
    ensures forall k :: 0 <= k < |r.value| ==>
      r.value[k].id in db.lessons && db.lessons[r.value[k].id].course == coursePk &&
      r.value[k] == LessonRepresentation(db, r.value[k].id)
    ensures forall l :: l in db.lessons && db.lessons[l].course == coursePk ==>
      exists k :: 0 <= k < |r.value| && r.value[k].id == l
    ensures forall i, j :: 0 <= i < j < |r.value| ==> r.value[i].order < r.value[j].order
  {
    Ok(CourseLessonReprs(db, coursePk))
  }

  /**
   * POST /courses/{course_pk}/lessons/: after the course lookup the view reads
   * `request.user.instructor`, which fails for a user without a profile.
   */
  function CreateLessonStep(db: Db, req: Requester, coursePk: CourseId, data: LessonData,
                            id: LessonId, now: Timestamp): (r: Step<LessonId>)
    requires Valid(db) && FreshId(db, id)
    ensures Valid(r.db)
    ensures r.result.Err? ==> r.db == db
    ensures r.result == Err(NotFound) <==> coursePk !in db.courses
    ensures r.result == Err(ServerError) <==> coursePk in db.courses && RoleOf(db, req).None?
    ensures r.result == Err(PermissionDenied(LessonOutsideCourses)) <==>
      coursePk in db.courses && RoleOf(db, req).Some? && db.courses[coursePk].instructor != RoleOf(db, req)
    ensures r.result == Err(IntegrityError) <==>
      coursePk in db.courses && RoleOf(db, req).Some? && db.courses[coursePk].instructor == RoleOf(db, req) &&
      exists k :: k in db.lessons && db.lessons[k].course == coursePk && db.lessons[k].order == Patched(0, data.order)
    ensures r.result.Ok? <==>
      && coursePk in db.courses && RoleOf(db, req).Some? && db.courses[coursePk].instructor == RoleOf(db, req)
      && !exists k :: k in db.lessons && db.lessons[k].course == coursePk && db.lessons[k].order == Patched(0, data.order)
    ensures r.result.Ok? ==> r.result.value == id
    ensures r.result.Ok? ==>
      r.db == db.(lessons := db.lessons[id := Lesson(data.title, data.content, coursePk, Patched(0, data.order), now, now)])
  {
    if coursePk !in db.courses then Step(db, Err(NotFound))
    else
      match RoleOf(db, req)
      case None => Step(db, Err(ServerError))
      case Some(p) =>
        if db.courses[coursePk].instructor != Some(p) then Step(db, Err(PermissionDenied(LessonOutsideCourses)))
        else
          match AddLesson(db, id, Lesson(data.title, data.content, coursePk, Patched(0, data.order), now, now))
          case None => Step(db, Err(IntegrityError))
          case Some(saved) => Step(saved, Ok(id))
  }

  /** The lesson `pk` as the nested queryset finds it: it must belong to `coursePk`. */
  predicate LessonInCourse(db: Db, coursePk: CourseId, pk: LessonId)
  {
    pk in db.lessons && db.lessons[pk].course == coursePk
  }

  /** PUT/PATCH /courses/{course_pk}/lessons/{pk}/: no ownership or authentication check. */
  function UpdateLessonStep(db: Db, req: Requester, coursePk: CourseId, pk: LessonId, patch: LessonPatch,
                            now: Timestamp): (r: Step<LessonId>)
    requires Valid(db)
    ensures Valid(r.db)
    ensures r.result.Err? ==> r.db == db
    ensures r.result == Err(NotFound) <==> !LessonInCourse(db, coursePk, pk)
    ensures r.result == Err(IntegrityError) <==>
      && LessonInCourse(db, coursePk, pk)
      && exists k :: (k in db.lessons && k != pk && db.lessons[k].course == coursePk &&
                      db.lessons[k].order == Patched(db.lessons[pk].order, patch.order))
    ensures r.result.Ok? <==>
      && LessonInCourse(db, coursePk, pk)
      && !exists k :: (k in db.lessons && k != pk && db.lessons[k].course == coursePk &&
                       db.lessons[k].order == Patched(db.lessons[pk].order, patch.order))
    ensures r.result.Ok? ==> r.result.value == pk && r.db.lessons.Keys == db.lessons.Keys
    ensures r.result.Ok? ==>
      r.db.lessons[pk] == db.lessons[pk].(title := Patched(db.lessons[pk].title, patch.title),
                                          content := Patched(db.lessons[pk].content, patch.content),
                                          order := Patched(db.lessons[pk].order, patch.order),
                                          updatedAt := now)
    ensures r.result.Ok? ==> forall k :: k in db.lessons && k != pk ==> r.db.lessons[k] == db.lessons[k]
    ensures r.db.users == db.users && r.db.instructors == db.instructors && r.db.courses == db.courses
    ensures r.db.enrollments == db.enrollments && r.db.grades == db.grades
  {
    if !LessonInCourse(db, coursePk, pk) then Step(db, Err(NotFound))
    else
      var lesson := db.lessons[pk];
      var updated := lesson.(title := Patched(lesson.title, patch.title),
                             content := Patched(lesson.content, patch.content),
                             order := Patched(lesson.order, patch.order),
                             updatedAt := now);
      match SaveLesson(db, pk, updated)
      case None => Step(db, Err(IntegrityError))
      case Some(saved) => Step(saved, Ok(pk))
  }

  /** DELETE /courses/{course_pk}/lessons/{pk}/: no ownership or authentication check. */
  function DestroyLessonStep(db: Db, req: Requester, coursePk: CourseId, pk: LessonId): (r: Step<LessonId>)
    requires Valid(db)
    ensures Valid(r.db)
    ensures r.result.Ok? <==> LessonInCourse(db, coursePk, pk)
    ensures r.result.Err? ==> r.db == db && r.result.error == NotFound
    ensures r.result.Ok? ==> r.db == db.(lessons := db.lessons - {pk})
  {
    if !LessonInCourse(db, coursePk, pk) then Step(db, Err(NotFound))
    else Step(db.(lessons := db.lessons - {pk}), Ok(pk))
  }

  // ===========================================================================
  // The viewsets on the store: one instance per request, as the framework does.
  // ===========================================================================

  class CourseViewSet {
    const store: Store.Store
    const request: Requester

    constructor (store: Store.Store, request: Requester)
      ensures this.store == store && this.request == request
    {
      this.store := store;
      this.request := request;
    }

    /** `create` with `perform_create`. */
    method Create(data: CourseData) returns (r: Result<CourseId>)
      requires store.Valid()
      modifies store
      ensures store.Valid()
      ensures Step(store.Db(), r) == CreateCourseStep(old(store.Db()), request, data, old(store.nextId))
    {
      if !IsInstructorOrReadOnly(store.Db(), POST, request) {
        return Err(Deny(request, NoPermission));
      }
      var profile := RoleOf(store.Db(), request);
      if profile.None? {
        return Err(ServerError);
      }
      var id := store.CreateCourse(Course(data.title, data.description, data.startDate, data.endDate, profile));
      r := Ok(id);
    }

    /** `update` / `partial_update`. */
    method Update(pk: CourseId, patch: CoursePatch) returns (r: Result<CourseId>)
      requires store.Valid()
      modifies store
      ensures store.Valid()
      ensures Step(store.Db(), r) == UpdateCourseStep(old(store.Db()), request, pk, patch)
    {
      if !IsInstructorOrReadOnly(store.Db(), PUT, request) {
        return Err(Deny(request, NoPermission));
      }
      if pk !in store.courses {
        return Err(NotFound);
      }
      var course := store.courses[pk];
      store.UpdateCourse(pk, course.(title := Patched(course.title, patch.title),
                                     description := Patched(course.description, patch.description),
                                     startDate := Patched(course.startDate, patch.startDate),
                                     endDate := Patched(course.endDate, patch.endDate)));
      r := Ok(pk);
    }

    /** `destroy`. */
    method Destroy(pk: CourseId) returns (r: Result<CourseId>)
      requires store.Valid()
      modifies store
      ensures store.Valid()
      ensures Step(store.Db(), r) == DestroyCourseStep(old(store.Db()), request, pk)
    {
      if !IsInstructorOrReadOnly(store.Db(), DELETE, request) {
        return Err(Deny(request, NoPermission));
      }
      if pk !in store.courses {
        return Err(NotFound);
      }
      store.DeleteCourse(pk);
      r := Ok(pk);
    }

    /** The `enroll` action. */
    method Enroll(pk: CourseId, today: Date) returns (r: Result<EnrollStatus>)
      requires store.Valid() && WellFormed(store.Db(), request)
      modifies store
      ensures store.Valid()
      ensures Step(store.Db(), r) == EnrollStep(old(store.Db()), request, pk, old(store.nextId), today)
    {
      if !IsAuthenticated(request) {
        return Err(Deny(request, NoPermission));
      }
      if pk !in store.courses {
        return Err(NotFound);
      }
      var existing := EnrollmentOf(store.enrollments, request.id, pk);
      if existing.Some? {
        return Ok(AlreadyEnrolled);
      }
      var _, _ := store.CreateEnrollment(Enrollment(request.id, pk, today));
      r := Ok(Enrolled);
    }

    /** The `unenroll` action. */
    method Unenroll(pk: CourseId) returns (r: Result<UnenrollStatus>)
      requires store.Valid() && WellFormed(store.Db(), request)
      modifies store
      ensures store.Valid()
      ensures Step(store.Db(), r) == UnenrollStep(old(store.Db()), request, pk)
    {
      if !IsAuthenticated(request) {
        return Err(Deny(request, NoPermission));
      }
      if pk !in store.courses {
        return Err(NotFound);
      }
      var existing := EnrollmentOf(store.enrollments, request.id, pk);
      if existing.None? {
        return Ok(NotEnrolled);
      }
      store.DeleteEnrollment(existing.value);
      r := Ok(Unenrolled);
    }
  }

  class EnrollmentViewSet {
    const store: Store.Store
    const request: Requester

    constructor (store: Store.Store, request: Requester)
      ensures this.store == store && this.request == request
    {
      this.store := store;
      this.request := request;
    }

    /** `create` with `perform_create`. */
    method Create(course: Option<CourseId>, student: Option<UserId>, today: Date) returns (r: Result<EnrollmentId>)
      requires store.Valid() && WellFormed(store.Db(), request)
      modifies store
      ensures store.Valid()
      ensures Step(store.Db(), r) ==
        CreateEnrollmentStep(old(store.Db()), request, course, student, old(store.nextId), today)
    {
      if !IsAuthenticated(request) {
        return Err(Deny(request, NoPermission));
      }
      if !StudentFieldValid(store.Db(), student) {
        return Err(Invalid({"student"}));
      }
      if course.None? || course.value !in store.courses {
        return Err(NotFound);
      }
      var id, saved := store.CreateEnrollment(Enrollment(request.id, course.value, today));
      r := if saved then Ok(id) else Err(IntegrityError);
    }
  }

  class GradeViewSet {
    const store: Store.Store
    const request: Requester

    constructor (store: Store.Store, request: Requester)
      ensures this.store == store && this.request == request
    {
      this.store := store;
      this.request := request;
    }

    /** `create` with `perform_create`. */
    method Create(enrollment: Option<EnrollmentId>, grade: Option<real>, today: Date) returns (r: Result<GradeId>)
      requires store.Valid()
      modifies store
      ensures store.Valid()
      ensures Step(store.Db(), r) == CreateGradeStep(old(store.Db()), request, enrollment, grade, old(store.nextId), today)
    {
      var denied := GradePermission(store.Db(), request);
      if denied.Some? {
        return Err(denied.value);
      }
      var errors := GradeErrors(store.Db(), enrollment, grade);
      if errors != {} {
        return Err(Invalid(errors));
      }
      var course := store.courses[store.enrollments[enrollment.value].course];
      if course.instructor != RoleOf(store.Db(), request) {
        return Err(PermissionDenied(GradeOutsideCourses));
      }
      var id := store.CreateGrade(Grade(enrollment.value, grade.value, today));
      r := Ok(id);
    }
  }

  class LessonViewSet {
    const store: Store.Store
    const request: Requester

    constructor (store: Store.Store, request: Requester)
      ensures this.store == store && this.request == request
    {
      this.store := store;
      this.request := request;
    }

    /** `create` with `perform_create`. */
    method Create(coursePk: CourseId, data: LessonData, now: Timestamp) returns (r: Result<LessonId>)
      requires store.Valid()
      modifies store
      ensures store.Valid()
      ensures Step(store.Db(), r) == CreateLessonStep(old(store.Db()), request, coursePk, data, old(store.nextId), now)
    {
      if coursePk !in store.courses {
        return Err(NotFound);
      }
      var profile := RoleOf(store.Db(), request);
      if profile.None? {
        return Err(ServerError);
      }
      if store.courses[coursePk].instructor != profile {
        return Err(PermissionDenied(LessonOutsideCourses));
      }
      var id, saved := store.CreateLesson(Lesson(data.title, data.content, coursePk, Patched(0, data.order), now, now));
      r := if saved then Ok(id) else Err(IntegrityError);
    }

    /** `update` / `partial_update`. */
    method Update(coursePk: CourseId, pk: LessonId, patch: LessonPatch, now: Timestamp) returns (r: Result<LessonId>)
      requires store.Valid()
      modifies store
      ensures store.Valid()
      ensures Step(store.Db(), r) == UpdateLessonStep(old(store.Db()), request, coursePk, pk, patch, now)
    {
      if !LessonInCourse(store.Db(), coursePk, pk) {
        return Err(NotFound);
      }
      var lesson := store.lessons[pk];
      var saved := store.UpdateLesson(pk, lesson.(title := Patched(lesson.title, patch.title),
                                                  content := Patched(lesson.content, patch.content),
                                                  order := Patched(lesson.order, patch.order),
                                                  updatedAt := now));
      r := if saved then Ok(pk) else Err(IntegrityError);
    }

    /** `destroy`. */
    method Destroy(coursePk: CourseId, pk: LessonId) returns (r: Result<LessonId>)
      requires store.Valid()
      modifies store
      ensures store.Valid()
      ensures Step(store.Db(), r) == DestroyLessonStep(old(store.Db()), request, coursePk, pk)
    {
      if !LessonInCourse(store.Db(), coursePk, pk) {
        return Err(NotFound);
      }
      store.DeleteLesson(pk);
      r := Ok(pk);
    }
  }
}
