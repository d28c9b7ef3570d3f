/**
 * Properties that relate several requests: enrolling is idempotent and
 * unenrolling undoes it, the enrollment status follows both, grades are seen
 * by the instructor who gave them, duplicate lesson orders are refused, and
 * the registration/enrollment scenario of the course catalogue.
 */
module Properties {
  import opened Wrappers
  import opened Models
  import opened Responses
  import opened Permissions
  import opened Serializers
  import opened Views

  // ---------------------------------------------------------------------------
  // Enrollment
  // ---------------------------------------------------------------------------

  /** After a successful enroll the requester is enrolled in the course. */
  lemma EnrollLeavesEnrolled(db: Db, req: Requester, pk: CourseId, id: EnrollmentId, today: Date)
    requires Valid(db) && WellFormed(db, req) && FreshId(db, id)
    requires EnrollStep(db, req, pk, id, today).result.Ok?
    ensures req.Authenticated? && IsEnrolledIn(EnrollStep(db, req, pk, id, today).db, req.id, pk)
  {
    var s := EnrollStep(db, req, pk, id, today);
    if s.result == Ok(Enrolled) {
      assert s.db.enrollments[id] == Enrollment(req.id, pk, today);
    }
  }

  /** A first enroll adds exactly one row, the requester's enrollment in the course. */
  lemma EnrollAddsExactlyOne(db: Db, req: Requester, pk: CourseId, id: EnrollmentId, today: Date)
    requires Valid(db) && WellFormed(db, req) && FreshId(db, id)
    requires EnrollStep(db, req, pk, id, today).result == Ok(Enrolled)
    ensures var s := EnrollStep(db, req, pk, id, today);
      && |s.db.enrollments| == |db.enrollments| + 1
      && s.db.enrollments.Keys == db.enrollments.Keys + {id}
      && EnrollmentOf(s.db.enrollments, req.id, pk) == Some(id)
      && EnrollResponse(s.result.value) == (201, "enrolled")
  {
    var s := EnrollStep(db, req, pk, id, today);
    var added := Enrollment(req.id, pk, today);
    assert s.db.enrollments == db.enrollments[id := added];
    InsertAddsOne(db.enrollments, id, added);
    assert s.db.enrollments[id] == added;
  }

  /** Inserting a fresh key grows a map by exactly that key. */
  lemma InsertAddsOne<K, V>(m: map<K, V>, k: K, v: V)
    requires k !in m
    ensures |m[k := v]| == |m| + 1 && m[k := v].Keys == m.Keys + {k}
  {
  }

  /** Enrolling twice is enrolling once: the second call changes nothing and reports "already enrolled". */
  lemma EnrollIsIdempotent(db: Db, req: Requester, pk: CourseId, id1: EnrollmentId, id2: EnrollmentId,
                           today1: Date, today2: Date)
    requires Valid(db) && WellFormed(db, req) && FreshId(db, id1)
    requires FreshId(EnrollStep(db, req, pk, id1, today1).db, id2)
    ensures var first := EnrollStep(db, req, pk, id1, today1);
      var second := EnrollStep(first.db, req, pk, id2, today2);
      && second.db == first.db
      && (first.result.Ok? ==> second.result == Ok(AlreadyEnrolled))
      && (first.result.Err? ==> second.result == first.result)
  {
    var first := EnrollStep(db, req, pk, id1, today1);
    assert first.db.users == db.users && first.db.courses == db.courses;
    if first.result.Ok? {
      EnrollLeavesEnrolled(db, req, pk, id1, today1);
    }
  }

  /** Unenrolling right after a first enroll restores the database exactly. */
  lemma UnenrollUndoesEnroll(db: Db, req: Requester, pk: CourseId, id: EnrollmentId, today: Date)
    requires Valid(db) && WellFormed(db, req) && FreshId(db, id)
    requires req.Authenticated? && pk in db.courses && !IsEnrolledIn(db, req.id, pk)
    ensures UnenrollStep(EnrollStep(db, req, pk, id, today).db, req, pk) == Step(db, Ok(Unenrolled))
  {
    var e := Enrollment(req.id, pk, today);
    var enrolled := EnrollStep(db, req, pk, id, today).db;
    assert enrolled == AddEnrollment(db, id, e).value;
    assert EnrollmentOf(enrolled.enrollments, req.id, pk) == Some(id);
    DeleteUndoesAddEnrollment(db, id, e);
  }

  /** After a successful unenroll no enrollment, and so no grade, of the pair is left. */
  lemma UnenrollLeavesNothing(db: Db, req: Requester, pk: CourseId)
    requires Valid(db) && WellFormed(db, req)
    requires UnenrollStep(db, req, pk).result == Ok(Unenrolled)
    ensures var after := UnenrollStep(db, req, pk).db;
      && !IsEnrolledIn(after, req.id, pk)
      && forall g :: g in after.grades ==>
           !(after.enrollments[after.grades[g].enrollment].student == req.id &&
             after.enrollments[after.grades[g].enrollment].course == pk)
  {
    var after := UnenrollStep(db, req, pk).db;
    var e :| e in db.enrollments && db.enrollments[e].student == req.id &&
             db.enrollments[e].course == pk && after == DeleteEnrollment(db, e);
    forall x | x in after.enrollments
      ensures !(after.enrollments[x].student == req.id && after.enrollments[x].course == pk)
    {
      assert x != e && after.enrollments[x] == db.enrollments[x];
    }
    forall g | g in after.grades
      ensures !(after.enrollments[after.grades[g].enrollment].student == req.id &&
                after.enrollments[after.grades[g].enrollment].course == pk)
    {
      assert after.grades[g].enrollment in after.enrollments;
    }
  }

  /** `enrollment_status` says enrolled after enroll and not enrolled after unenroll. */
  lemma StatusFollowsEnrollment(db: Db, req: Requester, pk: CourseId, id: EnrollmentId, today: Date)
    requires Valid(db) && WellFormed(db, req) && FreshId(db, id)
    requires req.Authenticated? && pk in db.courses
    ensures var enrolled := EnrollStep(db, req, pk, id, today).db;
      EnrollmentStatus(enrolled, req, pk) == Ok(EnrollmentReport(true, pk, req.id))
    ensures var left := UnenrollStep(db, req, pk).db;
      EnrollmentStatus(left, req, pk) == Ok(EnrollmentReport(false, pk, req.id))
  {
    var enrolled := EnrollStep(db, req, pk, id, today).db;
    EnrollLeavesEnrolled(db, req, pk, id, today);
    IsEnrolledIffEnrollment(enrolled, req.id, pk);
    var left := UnenrollStep(db, req, pk);
    if left.result == Ok(Unenrolled) {
      UnenrollLeavesNothing(db, req, pk);
    }
    IsEnrolledIffEnrollment(left.db, req.id, pk);
  }

  /** Which user the payload's `student` names never matters: the enrollment is the requester's. */
  lemma EnrollmentStudentIsRequester(db: Db, req: Requester, course: Option<CourseId>, s1: UserId, s2: UserId,
                                     id: EnrollmentId, today: Date)
    requires Valid(db) && WellFormed(db, req) && FreshId(db, id) && s1 in db.users && s2 in db.users
    ensures CreateEnrollmentStep(db, req, course, Some(s1), id, today) ==
            CreateEnrollmentStep(db, req, course, Some(s2), id, today)
    ensures var r := CreateEnrollmentStep(db, req, course, Some(s1), id, today);
      r.result.Ok? ==> r.db.enrollments[id].student == req.id
  {
  }

  /** A new enrollment shows up in the requester's own list, with its course marked as enrolled. */
  lemma CreatedEnrollmentIsListed(db: Db, req: Requester, course: Option<CourseId>, student: Option<UserId>,
                                  id: EnrollmentId, today: Date)
    requires Valid(db) && WellFormed(db, req) && FreshId(db, id)
    requires CreateEnrollmentStep(db, req, course, student, id, today).result.Ok?
    ensures var after := CreateEnrollmentStep(db, req, course, student, id, today).db;
      var list := ListEnrollments(after, req);
      list.Ok? && id in list.value && list.value[id].course.id == course.value && list.value[id].course.isEnrolled
  {
    var after := CreateEnrollmentStep(db, req, course, student, id, today).db;
    assert after.enrollments[id].student == req.id;
  }

  // ---------------------------------------------------------------------------
  // Courses
  // ---------------------------------------------------------------------------

  /** Course reads are open to every requester, including the anonymous one. */
  lemma CourseReadsOpenToAll(db: Db, req: Requester, pk: CourseId)
    requires Valid(db)
    ensures ListCourses(db, req).Ok?
    ensures RetrieveCourse(db, req, pk).Ok? <==> pk in db.courses
    ensures CourseEnrollments(db, req, pk) == CourseEnrollments(db, Anonymous, pk)
  {
  }

  /**
   * No ownership check on course writes: any instructor updates or deletes
   * any course, including one that another instructor owns.
   */
  lemma AnyInstructorWritesAnyCourse(db: Db, req: Requester, pk: CourseId, patch: CoursePatch)
    requires Valid(db) && RoleOf(db, req).Some? && pk in db.courses
    ensures UpdateCourseStep(db, req, pk, patch).result == Ok(pk)
    ensures DestroyCourseStep(db, req, pk) == Step(DeleteCourse(db, pk), Ok(pk))
  {
  }

  /** Requesters without a profile can create, update or delete no course. */
  lemma CourseWritesNeedProfile(db: Db, req: Requester, data: CourseData, id: CourseId, pk: CourseId,
                                patch: CoursePatch)
    requires Valid(db) && FreshId(db, id) && RoleOf(db, req).None?
    ensures CreateCourseStep(db, req, data, id) == Step(db, Err(Deny(req, NoPermission)))
    ensures UpdateCourseStep(db, req, pk, patch) == Step(db, Err(Deny(req, NoPermission)))
    ensures DestroyCourseStep(db, req, pk) == Step(db, Err(Deny(req, NoPermission)))
  {
  }

  /** A new course belongs to its creator: its representation names the creator's profile. */
  lemma CreatedCourseOwnedByCreator(db: Db, req: Requester, data: CourseData, id: CourseId)
    requires Valid(db) && FreshId(db, id)
    requires CreateCourseStep(db, req, data, id).result.Ok?
    ensures var after := CreateCourseStep(db, req, data, id).db;
      var shown := RetrieveCourse(after, req, id);
      && shown.Ok? && shown.value.instructor.Some?
      && shown.value.instructor.value.id == RoleOf(db, req).value
      && after.instructors[shown.value.instructor.value.id].user == req.id
      && shown.value.lessons == [] && !shown.value.isEnrolled
  {
    var after := CreateCourseStep(db, req, data, id).db;
    assert !IsEnrolledIn(after, req.id, id) by {
      forall e | e in after.enrollments ensures after.enrollments[e].course != id {
        assert after.enrollments[e].course in db.courses;
      }
    }
  }

  /** Once a course is deleted, its lesson list is empty and nobody counts as enrolled in it. */
  lemma DeletedCourseLeavesNothing(db: Db, req: Requester, pk: CourseId)
    requires Valid(db) && DestroyCourseStep(db, req, pk).result.Ok?
    ensures var after := DestroyCourseStep(db, req, pk).db;
      && ListLessons(after, req, pk) == Ok([])
      && forall u :: !IsEnrolledIn(after, u, pk)
  {
    var after := DestroyCourseStep(db, req, pk).db;
    forall u ensures !IsEnrolledIn(after, u, pk) {
      forall e | e in after.enrollments ensures after.enrollments[e].course != pk {
        assert after.enrollments[e].course in after.courses;
      }
    }
  }

  // ---------------------------------------------------------------------------
  // Grades
  // ---------------------------------------------------------------------------

  /** A grade just given is in the list of the instructor who gave it. */
  lemma GivenGradeIsVisibleToGrader(db: Db, req: Requester, enrollment: Option<EnrollmentId>, grade: Option<real>,
                                    id: GradeId, today: Date)
    requires Valid(db) && FreshId(db, id)
    requires CreateGradeStep(db, req, enrollment, grade, id, today).result.Ok?
    ensures var after := CreateGradeStep(db, req, enrollment, grade, id, today).db;
      var list := ListGrades(after, req);
      list.Ok? && id in list.value && list.value[id] == Grade(enrollment.value, grade.value, today)
  {
    var after := CreateGradeStep(db, req, enrollment, grade, id, today).db;
    assert after.instructors == db.instructors && after.enrollments == db.enrollments;
    assert after.grades[id] == Grade(enrollment.value, grade.value, today);
    assert Models.IsInstructor(after, req.id);
  }

  /** An instructor's grade list never holds a grade from a course another instructor owns. */
  lemma GradeListStaysInOwnCourses(db: Db, req: Requester)
    requires Valid(db) && ListGrades(db, req).Ok?
    ensures forall g :: g in ListGrades(db, req).value ==>
      db.courses[db.enrollments[db.grades[g].enrollment].course].instructor == RoleOf(db, req)
  {
    assert Models.IsInstructor(db, req.id);
  }

  /**
   * The students' branch of the grade queryset is unreachable through the
   * view: a student's grade list is refused before it is filtered.
   */
  lemma StudentsCannotListGrades(db: Db, u: UserId)
    requires Valid(db) && Models.IsStudent(db, u)
    ensures ListGrades(db, Authenticated(u)) == Err(PermissionDenied(InstructorsOnly))
  {
  }

  /** An instructor cannot grade an enrollment in a course owned by someone else. */
  lemma NoGradingOutsideOwnCourses(db: Db, req: Requester, e: EnrollmentId, grade: real, id: GradeId, today: Date)
    requires Valid(db) && FreshId(db, id) && e in db.enrollments
    requires RoleOf(db, req).Some? && db.courses[db.enrollments[e].course].instructor != RoleOf(db, req)
    ensures CreateGradeStep(db, req, Some(e), Some(grade), id, today) ==
            Step(db, Err(PermissionDenied(GradeOutsideCourses)))
  {
  }

  // ---------------------------------------------------------------------------
  // Lessons
  // ---------------------------------------------------------------------------

  /** A second lesson with the same order in the same course is refused by the database. */
  lemma DuplicateLessonOrderRefused(db: Db, req: Requester, coursePk: CourseId, first: LessonData,
                                    second: LessonData, id1: LessonId, id2: LessonId, now1: Timestamp, now2: Timestamp)
    requires Valid(db) && FreshId(db, id1)
    requires CreateLessonStep(db, req, coursePk, first, id1, now1).result.Ok?
    requires FreshId(CreateLessonStep(db, req, coursePk, first, id1, now1).db, id2)
    requires Patched(0, first.order) == Patched(0, second.order)
    ensures var s := CreateLessonStep(db, req, coursePk, first, id1, now1).db;
      CreateLessonStep(s, req, coursePk, second, id2, now2) == Step(s, Err(IntegrityError))
  {
    var s := CreateLessonStep(db, req, coursePk, first, id1, now1).db;
    assert s.instructors == db.instructors && s.courses == db.courses;
    assert s.lessons[id1].course == coursePk && s.lessons[id1].order == Patched(0, second.order);
  }

  /** A new lesson comes back in its course's list. */
  lemma CreatedLessonIsListed(db: Db, req: Requester, coursePk: CourseId, data: LessonData, id: LessonId,
                              now: Timestamp)
    requires Valid(db) && FreshId(db, id)
    requires CreateLessonStep(db, req, coursePk, data, id, now).result.Ok?
    ensures var after := CreateLessonStep(db, req, coursePk, data, id, now).db;
      var list := ListLessons(after, req, coursePk).value;
      exists k :: 0 <= k < |list| && list[k].id == id && list[k].order == Patched(0, data.order)
  {
    var after := CreateLessonStep(db, req, coursePk, data, id, now).db;
    var list := ListLessons(after, req, coursePk).value;
    assert after.lessons[id].course == coursePk;
    var k :| 0 <= k < |list| && list[k].id == id;
    assert list[k] == LessonRepresentation(after, id);
  }

  /** Lesson updates and deletions do not depend on who asks. */
  lemma LessonWritesIgnoreRequester(db: Db, r1: Requester, r2: Requester, coursePk: CourseId, pk: LessonId,
                                    patch: LessonPatch, now: Timestamp)
    requires Valid(db)
    ensures UpdateLessonStep(db, r1, coursePk, pk, patch, now) == UpdateLessonStep(db, r2, coursePk, pk, patch, now)
    ensures DestroyLessonStep(db, r1, coursePk, pk) == DestroyLessonStep(db, r2, coursePk, pk)
  {
  }

  // ---------------------------------------------------------------------------
  // A scenario: alice registers as an instructor and creates "Intro", bob
  // registers as a student and enrolls. Keys are handed out in sequence, as
  // the store draws them: alice 0, alice's profile 1, "Intro" 2, bob 3 (a student
  // draws no profile key), bob's enrollment 4, then the lessons 5 and 6.
  // ---------------------------------------------------------------------------

  const Alice := Registration("alice", "alice@example.com", "alicepass", "Alice", "A", "instructor")
  const Bob := Registration("bob", "bob@example.com", "bobpass", "Bob", "B", "student")
  const Intro := CourseData("Intro", "First steps", 0, 1)

  /** The database after alice registers. */
  const AfterAlice := Db(map[0 := User("alice", "alice@example.com", "Alice", "A")],
                         map[1 := Instructor(0, "")], map[], map[], map[], map[])

  /** The database after alice creates "Intro". */
  const AfterIntro := AfterAlice.(courses := map[2 := Course("Intro", "First steps", 0, 1, Some(1))])

  /** The database after bob registers. */
  const AfterBob := AfterIntro.(users := AfterIntro.users[3 := User("bob", "bob@example.com", "Bob", "B")])

  /** The database after bob enrolls in "Intro". */
  const AfterEnroll := AfterBob.(enrollments := map[4 := Enrollment(3, 2, 0)])

  /** alice's payload has no surrounding whitespace, so it is stored as sent. */
  lemma AliceIsStoredAsSent()
    ensures Strip(Alice.username) == "alice" && Strip(Alice.password) == "alicepass" && NullFree(Alice)
    ensures NewUser(Alice) == User("alice", "alice@example.com", "Alice", "A")
  {
    StripKeepsTrimmed("alice");
    StripKeepsTrimmed("alice@example.com");
    StripKeepsTrimmed("Alice");
    StripKeepsTrimmed("A");
    StripKeepsTrimmed("alicepass");
  }

  lemma AliceRegistersAsInstructor()
    ensures Valid(AfterAlice)
    ensures RegisterStep(EmptyDb, Alice, 0, 1) == Step(AfterAlice, Ok(0))
    ensures RoleOf(AfterAlice, Authenticated(0)) == Some(1)
  {
    AliceIsStoredAsSent();
    assert ParseUserType(Alice.userType) == Some(InstructorType);
    var r := RegisterStep(EmptyDb, Alice, 0, 1);
    assert r.result == Ok(0);
    assert r.db.users == AfterAlice.users && r.db.instructors == AfterAlice.instructors;
    assert AfterAlice.instructors[1].user == 0;
  }

  lemma AliceCreatesIntro()
    ensures Valid(AfterIntro)
    ensures CreateCourseStep(AfterAlice, Authenticated(0), Intro, 2) == Step(AfterIntro, Ok(2))
  {
    assert Valid(AfterAlice) && RoleOf(AfterAlice, Authenticated(0)) == Some(1) by {
      AliceRegistersAsInstructor();
    }
  }

  /** A valid student registration adds exactly the new user row. */
  lemma RegisterStudentAddsUser(db: Db, data: Registration, uid: UserId, iid: InstructorId)
    requires Valid(db) && FreshId(db, uid) && FreshId(db, iid) && uid != iid
    requires data.userType == "student" && Strip(data.username) != [] && !UsernameTaken(db, Strip(data.username))
    requires Strip(data.password) != [] && NullFree(data)
    ensures AddUser(db, uid, NewUser(data)).Some?
    ensures RegisterStep(db, data, uid, iid) == Step(AddUser(db, uid, NewUser(data)).value, Ok(uid))
  {
  }

  /** bob's payload has no surrounding whitespace, so it is stored as sent. */
  lemma BobIsStoredAsSent()
    ensures Strip(Bob.username) == "bob" && Strip(Bob.password) == "bobpass" && NullFree(Bob)
    ensures NewUser(Bob) == User("bob", "bob@example.com", "Bob", "B")
  {
    StripKeepsTrimmed("bob");
    StripKeepsTrimmed("bob@example.com");
    StripKeepsTrimmed("Bob");
    StripKeepsTrimmed("B");
    StripKeepsTrimmed("bobpass");
  }

  /** No user is called "bob" before bob registers. */
  lemma BobIsNew()
    ensures Strip(Bob.username) == "bob" && NewUser(Bob) == AfterBob.users[3]
    ensures !UsernameTaken(AfterIntro, "bob")
  {
    BobIsStoredAsSent();
    assert AfterIntro.users.Keys == {0} && AfterIntro.users[0].username == "alice";
  }

  /** The database after bob registers is the one with bob's row saved under key 3. */
  lemma BobIsSaved()
    ensures Valid(AfterIntro) && FreshId(AfterIntro, 3)
    ensures AddUser(AfterIntro, 3, NewUser(Bob)) == Some(AfterBob) && Valid(AfterBob)
  {
    assert Valid(AfterIntro) by {
      AliceCreatesIntro();
    }
    BobIsNew();
    assert AfterIntro.(users := AfterIntro.users[3 := NewUser(Bob)]) == AfterBob;
  }

  lemma BobRegistersAsStudent()
    ensures Valid(AfterBob)
    ensures RegisterStep(AfterIntro, Bob, 3, 4) == Step(AfterBob, Ok(3))
    ensures RoleOf(AfterBob, Authenticated(3)).None?
  {
    BobIsSaved();
    BobIsStoredAsSent();
    BobIsNew();
    assert FreshId(AfterIntro, 4);
    RegisterStudentAddsUser(AfterIntro, Bob, 3, 4);
    assert RoleOf(AfterBob, Authenticated(3)).None? by {
      assert AfterBob.instructors.Keys == {1} && AfterBob.instructors[1].user == 0;
    }
  }

  lemma BobEnrollsInIntro()
    ensures Valid(AfterEnroll)
    ensures EnrollStep(AfterBob, Authenticated(3), 2, 4, 0) == Step(AfterEnroll, Ok(Enrolled))
  {
    assert Valid(AfterBob) by {
      BobRegistersAsStudent();
    }
    assert !IsEnrolledIn(AfterBob, 3, 2);
  }

  /** bob's enrollment list holds exactly one entry, and it is "Intro". */
  lemma BobSeesOneEnrollment()
    ensures Valid(AfterEnroll)
    ensures var list := ListEnrollments(AfterEnroll, Authenticated(3));
      list.Ok? && list.value.Keys == {4} && list.value[4].course.id == 2 && list.value[4].course.title == "Intro"
  {
    BobEnrollsInIntro();
    assert AfterEnroll.enrollments[4].student == 3;
  }

  /** bob, a student, cannot add a lesson to "Intro": the view fails with a server error. */
  lemma BobCannotAddLesson()
    ensures Valid(AfterEnroll) && FreshId(AfterEnroll, 5)
    ensures CreateLessonStep(AfterEnroll, Authenticated(3), 2, LessonData("L1", "Welcome", Some(1)), 5, 0).result == Err(ServerError)
  {
    BobEnrollsInIntro();
    assert AfterEnroll.instructors == AfterBob.instructors;
  }

  /** alice adds lesson order 1 to "Intro"; a second lesson with order 1 is refused. */
  lemma AliceCannotRepeatLessonOrder()
    ensures Valid(AfterEnroll) && FreshId(AfterEnroll, 5)
    ensures var first := CreateLessonStep(AfterEnroll, Authenticated(0), 2, LessonData("L1", "Welcome", Some(1)), 5, 0);
      && first.result == Ok(5)
      && FreshId(first.db, 6)
      && CreateLessonStep(first.db, Authenticated(0), 2, LessonData("L2", "Recap", Some(1)), 6, 0).result == Err(IntegrityError)
  {
    BobEnrollsInIntro();
    assert RoleOf(AfterEnroll, Authenticated(0)) == Some(1) by {
      assert AfterEnroll.instructors[1].user == 0;
    }
    var first := CreateLessonStep(AfterEnroll, Authenticated(0), 2, LessonData("L1", "Welcome", Some(1)), 5, 0);
    DuplicateLessonOrderRefused(AfterEnroll, Authenticated(0), 2, LessonData("L1", "Welcome", Some(1)),
                                LessonData("L2", "Recap", Some(1)), 5, 6, 0, 0);
  }
}
