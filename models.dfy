/**
 * The relational schema of the course-management backend: the five entities
 * (Instructor, Course, Enrollment, Grade, Lesson) and the built-in User, the
 * database as one value holding a table per entity, the uniqueness and
 * foreign-key constraints the schema declares, role resolution through the
 * one-to-one Instructor profile, the on-delete rules, and the default lesson
 * ordering.
 */
module Models {
  import opened Wrappers

  // Primary keys: every table has its own auto-increment integer key.
  type UserId = nat
  type InstructorId = nat
  type CourseId = nat
  type EnrollmentId = nat
  type GradeId = nat
  type LessonId = nat

  /** A calendar day (a DateField); days set by the clock are parameters of the operations. */
  type Date = int
  /** An instant (a DateTimeField). */
  type Timestamp = int

  /** The framework's user record, reduced to the fields the core reads or writes. */
  datatype User = User(username: string, email: string, firstName: string, lastName: string)

  /** The one-to-one profile that makes a user an instructor. */
  datatype Instructor = Instructor(user: UserId, bio: string)

  /** `instructor` is a nullable foreign key (SET_NULL on delete). */
  datatype Course = Course(title: string, description: string, startDate: Date, endDate: Date,
                           instructor: Option<InstructorId>)

  datatype Enrollment = Enrollment(student: UserId, course: CourseId, enrollmentDate: Date)

  /** `grade` is a floating-point column; the model stores it and never computes with it. */
  datatype Grade = Grade(enrollment: EnrollmentId, grade: real, dateReceived: Date)

  datatype Lesson = Lesson(title: string, content: string, course: CourseId, order: int,
                           createdAt: Timestamp, updatedAt: Timestamp)

  /** The whole database: one table per model, keyed by primary key. */
  datatype Db = Db(users: map<UserId, User>,
                   instructors: map<InstructorId, Instructor>,
                   courses: map<CourseId, Course>,
                   enrollments: map<EnrollmentId, Enrollment>,
                   grades: map<GradeId, Grade>,
                   lessons: map<LessonId, Lesson>)

  const EmptyDb: Db := Db(map[], map[], map[], map[], map[], map[])

  // ---------------------------------------------------------------------------
  // Schema constraints
  // ---------------------------------------------------------------------------

  /** `auth_user.username` is UNIQUE: no two user rows share a username. */
  ghost predicate UniqueUsernames(users: map<UserId, User>)
  {
    forall a, b :: a in users && b in users && users[a].username == users[b].username ==> a == b
  }

  /** `Instructor.user` is a OneToOneField: at most one profile per user. */
  ghost predicate OneProfilePerUser(instructors: map<InstructorId, Instructor>)
  {
    forall i, j :: i in instructors && j in instructors && instructors[i].user == instructors[j].user ==> i == j
  }

  /** `unique_together = ['student', 'course']` on Enrollment. */
  ghost predicate UniqueEnrollments(enrollments: map<EnrollmentId, Enrollment>)
  {
    forall a, b ::
      a in enrollments && b in enrollments &&
      enrollments[a].student == enrollments[b].student && enrollments[a].course == enrollments[b].course
      ==> a == b
  }

  /** `unique_together = ['course', 'order']` on Lesson. */
  ghost predicate UniqueLessonOrders(lessons: map<LessonId, Lesson>)
  {
    forall a, b ::
      a in lessons && b in lessons && lessons[a].course == lessons[b].course && lessons[a].order == lessons[b].order
      ==> a == b
  }

  /** Every foreign key refers to a stored row; a null `Course.instructor` refers to nothing. */
  ghost predicate ForeignKeys(db: Db)
  {
    (forall i :: i in db.instructors ==> db.instructors[i].user in db.users) &&
    (forall c :: c in db.courses && db.courses[c].instructor.Some? ==> db.courses[c].instructor.value in db.instructors) &&
    (forall e :: e in db.enrollments ==> db.enrollments[e].student in db.users && db.enrollments[e].course in db.courses) &&
    (forall g :: g in db.grades ==> db.grades[g].enrollment in db.enrollments) &&
    (forall l :: l in db.lessons ==> db.lessons[l].course in db.courses)
  }

  /** The database invariant: every declared constraint holds. */
  ghost predicate Valid(db: Db)
  {
    UniqueUsernames(db.users) && OneProfilePerUser(db.instructors) && UniqueEnrollments(db.enrollments) &&
    UniqueLessonOrders(db.lessons) && ForeignKeys(db)
  }

  /** An id that no table uses yet (what the auto-increment sequences hand out). */
  ghost predicate FreshId(db: Db, id: nat)
  {
    id !in db.users && id !in db.instructors && id !in db.courses &&
    id !in db.enrollments && id !in db.grades && id !in db.lessons
  }

  /** Every primary key in use is below `n`. */
  ghost predicate KeysBelow(db: Db, n: nat)
  {
    (forall k :: k in db.users ==> k < n) && (forall k :: k in db.instructors ==> k < n) &&
    (forall k :: k in db.courses ==> k < n) && (forall k :: k in db.enrollments ==> k < n) &&
    (forall k :: k in db.grades ==> k < n) && (forall k :: k in db.lessons ==> k < n)
  }

  /** Removing rows keeps every remaining key below the bound. */
  lemma KeysBelowShrinks(db: Db, r: Db, n: nat)
    requires KeysBelow(db, n)
    requires r.users.Keys <= db.users.Keys && r.instructors.Keys <= db.instructors.Keys
    requires r.courses.Keys <= db.courses.Keys && r.enrollments.Keys <= db.enrollments.Keys
    requires r.grades.Keys <= db.grades.Keys && r.lessons.Keys <= db.lessons.Keys
    ensures KeysBelow(r, n)
  {
  }

  // ---------------------------------------------------------------------------
  // Role resolution and lookups
  // ---------------------------------------------------------------------------

  /**
   * The reverse one-to-one lookup `user.instructor`: the user's profile, or
   * None where `hasattr(user, 'instructor')` is false.
   */
  function ProfileOf(instructors: map<InstructorId, Instructor>, u: UserId): (r: Option<InstructorId>)
    requires OneProfilePerUser(instructors)
    ensures r.Some? ==> r.value in instructors
    ensures forall i :: i in instructors ==> (instructors[i].user == u <==> r == Some(i))
  {
    if exists i :: i in instructors && instructors[i].user == u then
      var i :| i in instructors && instructors[i].user == u; Some(i)
    else
      None
  }

  /** `UserProfile.is_instructor`: the user has an Instructor profile, i.e. some profile row names them. */
  predicate IsInstructor(db: Db, u: UserId): (r: bool)
    requires OneProfilePerUser(db.instructors)
    ensures r <==> exists i :: i in db.instructors && db.instructors[i].user == u
  {
    ProfileOf(db.instructors, u).Some?
  }

  /** `UserProfile.is_student`: the negation of `is_instructor`, so no profile row names the user. */
  predicate IsStudent(db: Db, u: UserId): (r: bool)
    requires OneProfilePerUser(db.instructors)
    ensures r <==> forall i :: i in db.instructors ==> db.instructors[i].user != u
  {
    !IsInstructor(db, u)
  }

  /** `Enrollment.objects.get(student=u, course=c)`: the pair's enrollment, if there is one. */
  function EnrollmentOf(enrollments: map<EnrollmentId, Enrollment>, u: UserId, c: CourseId): (r: Option<EnrollmentId>)
    requires UniqueEnrollments(enrollments)
    ensures r.Some? ==> r.value in enrollments
    ensures forall e :: e in enrollments ==>
      (enrollments[e].student == u && enrollments[e].course == c <==> r == Some(e))
  {
    if exists e :: e in enrollments && enrollments[e].student == u && enrollments[e].course == c then
      var e :| e in enrollments && enrollments[e].student == u && enrollments[e].course == c; Some(e)
    else
      None
  }

  /** `Enrollment.objects.filter(student=u, course=c).exists()`. */
  predicate IsEnrolledIn(db: Db, u: UserId, c: CourseId)
  {
    exists e :: e in db.enrollments && db.enrollments[e].student == u && db.enrollments[e].course == c
  }

  // ---------------------------------------------------------------------------
  // Saving rows: the database refuses a row that breaks a uniqueness constraint
  // (None below); foreign keys always name saved rows, which callers supply.
  // ---------------------------------------------------------------------------

  /** The lesson rows other than `l` in `course` with order `order`. */
  predicate OrderTaken(lessons: map<LessonId, Lesson>, course: CourseId, order: int, except: Option<LessonId>)
  {
    exists k :: k in lessons && lessons[k].course == course && lessons[k].order == order && Some(k) != except
  }

  /** Inserting a user row: refused when another user has the username (`username` is unique). */
  function AddUser(db: Db, id: UserId, u: User): (r: Option<Db>)
    requires Valid(db) && FreshId(db, id)
    ensures r.None? <==> exists k :: k in db.users && db.users[k].username == u.username
    ensures r.Some? ==> Valid(r.value) && r.value.users == db.users[id := u]
    ensures r.Some? ==> r.value.instructors == db.instructors && r.value.courses == db.courses
    ensures r.Some? ==> r.value.enrollments == db.enrollments && r.value.grades == db.grades && r.value.lessons == db.lessons
  {
    if exists k :: k in db.users && db.users[k].username == u.username then None
    else
      NewUserKeepsValid(db, id, u);
      Some(db.(users := db.users[id := u]))
  }

  /** A fresh user row with a username no one has keeps every constraint. */
  lemma NewUserKeepsValid(db: Db, id: UserId, u: User)
    requires Valid(db) && FreshId(db, id)
    requires forall k :: k in db.users ==> db.users[k].username != u.username
    ensures Valid(db.(users := db.users[id := u]))
  {
    var users := db.users[id := u];
    assert UniqueUsernames(users) by {
      forall a, b | a in users && b in users && a != b ensures users[a].username != users[b].username {
        if a == id { assert b in db.users; } else if b == id { assert a in db.users; }
      }
    }
    var r := db.(users := users);
    assert ForeignKeys(r) by {
      assert forall i :: i in r.instructors ==> r.instructors[i].user in db.users;
      assert forall e :: e in r.enrollments ==> r.enrollments[e].student in db.users;
    }
  }

  /** Inserting an Instructor row: refused when the user already has a profile (OneToOneField). */
  function AddInstructor(db: Db, id: InstructorId, p: Instructor): (r: Option<Db>)
    requires Valid(db) && FreshId(db, id) && p.user in db.users
    ensures r.None? <==> exists i :: i in db.instructors && db.instructors[i].user == p.user
    ensures r.Some? ==> Valid(r.value) && ProfileOf(r.value.instructors, p.user) == Some(id)
    ensures r.Some? ==> r.value == db.(instructors := db.instructors[id := p])
  {
    if ProfileOf(db.instructors, p.user).Some? then None
    else
      NewInstructorKeepsValid(db, id, p);
      Some(db.(instructors := db.instructors[id := p]))
  }

  /** A fresh profile for a user who has none keeps every constraint. */
  lemma NewInstructorKeepsValid(db: Db, id: InstructorId, p: Instructor)
    requires Valid(db) && FreshId(db, id) && p.user in db.users
    requires forall i :: i in db.instructors ==> db.instructors[i].user != p.user
    ensures Valid(db.(instructors := db.instructors[id := p]))
    ensures ProfileOf(db.instructors[id := p], p.user) == Some(id)
  {
    var instructors := db.instructors[id := p];
    assert OneProfilePerUser(instructors) by {
      forall i, j | i in instructors && j in instructors && i != j ensures instructors[i].user != instructors[j].user {
        if i == id { assert j in db.instructors; } else if j == id { assert i in db.instructors; }
      }
    }
    var r := db.(instructors := instructors);
    assert ForeignKeys(r) by {
      assert forall c :: c in r.courses && r.courses[c].instructor.Some? ==> r.courses[c].instructor.value in db.instructors;
    }
  }

  /** Inserting a course row. */
  function AddCourse(db: Db, id: CourseId, c: Course): (r: Db)
    requires Valid(db) && FreshId(db, id)
    requires c.instructor.Some? ==> c.instructor.value in db.instructors
    ensures Valid(r)
    ensures r.courses == db.courses[id := c]
    ensures r.users == db.users && r.instructors == db.instructors
    ensures r.enrollments == db.enrollments && r.grades == db.grades && r.lessons == db.lessons
  {
    db.(courses := db.courses[id := c])
  }

  /** Updating course row `c` in place. */
  function SaveCourse(db: Db, c: CourseId, course: Course): (r: Db)
    requires Valid(db) && c in db.courses
    requires course.instructor.Some? ==> course.instructor.value in db.instructors
    ensures Valid(r) && r.courses.Keys == db.courses.Keys
    ensures r.courses[c] == course && forall k :: k in db.courses && k != c ==> r.courses[k] == db.courses[k]
    ensures r.users == db.users && r.instructors == db.instructors
    ensures r.enrollments == db.enrollments && r.grades == db.grades && r.lessons == db.lessons
  {
    db.(courses := db.courses[c := course])
  }

  /** Inserting an enrollment: refused when the (student, course) pair is already enrolled. */
  function AddEnrollment(db: Db, id: EnrollmentId, e: Enrollment): (r: Option<Db>)
    requires Valid(db) && FreshId(db, id)
    requires e.student in db.users && e.course in db.courses
    ensures r.None? <==> IsEnrolledIn(db, e.student, e.course)
    ensures r.Some? ==> Valid(r.value) && EnrollmentOf(r.value.enrollments, e.student, e.course) == Some(id)
    ensures r.Some? ==> r.value == db.(enrollments := db.enrollments[id := e])
  {
    if EnrollmentOf(db.enrollments, e.student, e.course).Some? then None
    else
      NewEnrollmentKeepsValid(db, id, e);
      Some(db.(enrollments := db.enrollments[id := e]))
  }

  /** Deleting a fresh enrollment restores the database: no grade refers to it yet. */
  lemma DeleteUndoesAddEnrollment(db: Db, id: EnrollmentId, e: Enrollment)
    requires Valid(db) && FreshId(db, id)
    requires e.student in db.users && e.course in db.courses && !IsEnrolledIn(db, e.student, e.course)
    ensures AddEnrollment(db, id, e).Some? && DeleteEnrollment(AddEnrollment(db, id, e).value, id) == db
  {
    var added := db.(enrollments := db.enrollments[id := e]);
    assert AddEnrollment(db, id, e) == Some(added);
    assert GradesOutside(db.grades, {id}) == db.grades by {
      forall g | g in db.grades ensures db.grades[g].enrollment != id {
        assert db.grades[g].enrollment in db.enrollments;
      }
    }
    assert (db.enrollments[id := e]) - {id} == db.enrollments;
  }

  /** A fresh enrollment of a pair not yet enrolled keeps every constraint. */
  lemma NewEnrollmentKeepsValid(db: Db, id: EnrollmentId, e: Enrollment)
    requires Valid(db) && FreshId(db, id)
    requires e.student in db.users && e.course in db.courses
    requires !IsEnrolledIn(db, e.student, e.course)
    ensures Valid(db.(enrollments := db.enrollments[id := e]))
    ensures EnrollmentOf(db.enrollments[id := e], e.student, e.course) == Some(id)
  {
    var enrollments := db.enrollments[id := e];
    assert UniqueEnrollments(enrollments) by {
      forall a, b | a in enrollments && b in enrollments && a != b
        ensures enrollments[a].student != enrollments[b].student || enrollments[a].course != enrollments[b].course
      {
        if a == id { assert b in db.enrollments; } else if b == id { assert a in db.enrollments; }
      }
    }
    var r := db.(enrollments := enrollments);
    assert ForeignKeys(r) by {
      assert forall g :: g in r.grades ==> r.grades[g].enrollment in db.enrollments;
    }
  }

  /** Inserting a grade row. */
  function AddGrade(db: Db, id: GradeId, g: Grade): (r: Db)
    requires Valid(db) && FreshId(db, id) && g.enrollment in db.enrollments
    ensures Valid(r)
    ensures r.grades == db.grades[id := g]
    ensures r.users == db.users && r.instructors == db.instructors && r.courses == db.courses
    ensures r.enrollments == db.enrollments && r.lessons == db.lessons
  {
    db.(grades := db.grades[id := g])
  }

  /** Inserting a lesson: refused when its course already has a lesson with that order. */
  function AddLesson(db: Db, id: LessonId, l: Lesson): (r: Option<Db>)
    requires Valid(db) && FreshId(db, id) && l.course in db.courses
    ensures r.None? <==> exists k :: k in db.lessons && db.lessons[k].course == l.course && db.lessons[k].order == l.order
    ensures r.Some? ==> Valid(r.value) && r.value == db.(lessons := db.lessons[id := l])
  {
    if OrderTaken(db.lessons, l.course, l.order, None) then None
    else Some(db.(lessons := db.lessons[id := l]))
  }

  /** Updating lesson row `l`: refused when another lesson of its course has that order. */
  function SaveLesson(db: Db, l: LessonId, lesson: Lesson): (r: Option<Db>)
    requires Valid(db) && l in db.lessons && lesson.course in db.courses
    ensures r.None? <==>
      exists k :: k in db.lessons && k != l && db.lessons[k].course == lesson.course && db.lessons[k].order == lesson.order
    ensures r.Some? ==> Valid(r.value) && r.value == db.(lessons := db.lessons[l := lesson])
  {
    if OrderTaken(db.lessons, lesson.course, lesson.order, Some(l)) then None
    else Some(db.(lessons := db.lessons[l := lesson]))
  }

  // ---------------------------------------------------------------------------
  // On-delete rules
  // ---------------------------------------------------------------------------

  /** The grades table without the grades of the enrollments in `gone` (CASCADE). */
  function GradesOutside(grades: map<GradeId, Grade>, gone: set<EnrollmentId>): map<GradeId, Grade>
  {
    map g | g in grades && grades[g].enrollment !in gone :: grades[g]
  }

  /** Deleting an enrollment deletes its grades. */
  function DeleteEnrollment(db: Db, e: EnrollmentId): (r: Db)
    requires Valid(db)
    ensures Valid(r)
    ensures r.enrollments == db.enrollments - {e}
    ensures forall g :: g in r.grades <==> g in db.grades && db.grades[g].enrollment != e
    ensures forall g :: g in r.grades ==> r.grades[g] == db.grades[g]
    ensures r.users == db.users && r.instructors == db.instructors
    ensures r.courses == db.courses && r.lessons == db.lessons
  {
    db.(enrollments := db.enrollments - {e}, grades := GradesOutside(db.grades, {e}))
  }

  /** The enrollments of course `c`. */
  function EnrollmentsOfCourse(db: Db, c: CourseId): set<EnrollmentId>
  {
    set e | e in db.enrollments && db.enrollments[e].course == c
  }

  /**
   * Deleting a course deletes its enrollments, their grades and its lessons
   * (Enrollment.course and Lesson.course are CASCADE, and so is Grade.enrollment).
   */
  function DeleteCourse(db: Db, c: CourseId): (r: Db)
    requires Valid(db)
    ensures Valid(r)
    ensures r.courses == db.courses - {c}
    ensures forall e :: e in r.enrollments <==> e in db.enrollments && db.enrollments[e].course != c
    ensures forall g :: g in r.grades <==> g in db.grades && db.enrollments[db.grades[g].enrollment].course != c
    ensures forall l :: l in r.lessons <==> l in db.lessons && db.lessons[l].course != c
    ensures forall e :: e in r.enrollments ==> r.enrollments[e] == db.enrollments[e]
    ensures forall g :: g in r.grades ==> r.grades[g] == db.grades[g]
    ensures forall l :: l in r.lessons ==> r.lessons[l] == db.lessons[l]
    ensures r.users == db.users && r.instructors == db.instructors
  {
    var gone := EnrollmentsOfCourse(db, c);
    var r := Db(db.users, db.instructors, db.courses - {c},
                db.enrollments - gone,
                GradesOutside(db.grades, gone),
                map l | l in db.lessons && db.lessons[l].course != c :: db.lessons[l]);
    CourseDeletionKeepsValid(db, c, gone, r);
    r
  }

  /** The rows `DeleteCourse` keeps satisfy every constraint. */
  lemma CourseDeletionKeepsValid(db: Db, c: CourseId, gone: set<EnrollmentId>, r: Db)
    requires Valid(db) && gone == EnrollmentsOfCourse(db, c)
    requires r == Db(db.users, db.instructors, db.courses - {c}, db.enrollments - gone, GradesOutside(db.grades, gone),
                     map l | l in db.lessons && db.lessons[l].course != c :: db.lessons[l])
    ensures Valid(r)
  {
    assert UniqueEnrollments(r.enrollments) && UniqueLessonOrders(r.lessons);
    forall e | e in r.enrollments ensures r.enrollments[e].course in r.courses {
      assert e !in gone;
    }
    forall g | g in r.grades ensures r.grades[g].enrollment in r.enrollments {
      assert db.grades[g].enrollment !in gone;
    }
  }

  /** The courses table with every course of an instructor in `gone` set to no instructor. */
  function CoursesWithout(courses: map<CourseId, Course>, gone: set<InstructorId>): map<CourseId, Course>
  {
    map c | c in courses ::
      if courses[c].instructor.Some? && courses[c].instructor.value in gone
      then courses[c].(instructor := None) else courses[c]
  }

  /** Deleting an Instructor keeps their courses and sets their `instructor` to null (SET_NULL). */
  function DeleteInstructor(db: Db, i: InstructorId): (r: Db)
    requires Valid(db)
    ensures Valid(r)
    ensures r.instructors == db.instructors - {i}
    ensures r.courses.Keys == db.courses.Keys
    ensures forall c :: c in db.courses ==>
      r.courses[c] == if db.courses[c].instructor == Some(i) then db.courses[c].(instructor := None) else db.courses[c]
    ensures r.users == db.users && r.enrollments == db.enrollments
    ensures r.grades == db.grades && r.lessons == db.lessons
  {
    db.(instructors := db.instructors - {i}, courses := CoursesWithout(db.courses, {i}))
  }

  /**
   * Deleting a user deletes their Instructor profile (CASCADE, which in turn
   * sets that instructor's courses to null) and their enrollments with the
   * grades on them (CASCADE).
   */
  function DeleteUser(db: Db, u: UserId): (r: Db)
    requires Valid(db)
    ensures Valid(r)
    ensures r.users == db.users - {u}
    ensures forall i :: i in r.instructors <==> i in db.instructors && db.instructors[i].user != u
    ensures r.courses.Keys == db.courses.Keys
    ensures forall c :: c in db.courses ==>
      r.courses[c].instructor == (if db.courses[c].instructor.Some? && db.instructors[db.courses[c].instructor.value].user == u
                                  then None else db.courses[c].instructor)
    ensures forall c :: c in db.courses ==> r.courses[c] == db.courses[c].(instructor := r.courses[c].instructor)
    ensures forall e :: e in r.enrollments <==> e in db.enrollments && db.enrollments[e].student != u
    ensures forall g :: g in r.grades <==> g in db.grades && db.enrollments[db.grades[g].enrollment].student != u
    ensures forall i :: i in r.instructors ==> r.instructors[i] == db.instructors[i]
    ensures forall e :: e in r.enrollments ==> r.enrollments[e] == db.enrollments[e]
    ensures forall g :: g in r.grades ==> r.grades[g] == db.grades[g]
    ensures r.lessons == db.lessons
  {
    var profiles := set i | i in db.instructors && db.instructors[i].user == u;
    var gone := set e | e in db.enrollments && db.enrollments[e].student == u;
    var r := Db(db.users - {u},
                db.instructors - profiles,
                CoursesWithout(db.courses, profiles),
                db.enrollments - gone,
                GradesOutside(db.grades, gone),
                db.lessons);
    UserDeletionKeepsValid(db, u, profiles, gone, r);
    r
  }

  /** The rows `DeleteUser` keeps satisfy every constraint. */
  lemma UserDeletionKeepsValid(db: Db, u: UserId, profiles: set<InstructorId>, gone: set<EnrollmentId>, r: Db)
    requires Valid(db)
    requires profiles == set i | i in db.instructors && db.instructors[i].user == u
    requires gone == set e | e in db.enrollments && db.enrollments[e].student == u
    requires r == Db(db.users - {u}, db.instructors - profiles, CoursesWithout(db.courses, profiles),
                     db.enrollments - gone, GradesOutside(db.grades, gone), db.lessons)
    ensures Valid(r)
  {
    assert UniqueUsernames(r.users) && OneProfilePerUser(r.instructors) && UniqueEnrollments(r.enrollments);
    forall i | i in r.instructors ensures r.instructors[i].user in r.users {
      assert i !in profiles;
    }
    assert r.courses.Keys == db.courses.Keys;
    forall c | c in r.courses && r.courses[c].instructor.Some? ensures r.courses[c].instructor.value in r.instructors {
      assert db.courses[c].instructor.value !in profiles;
    }
    forall e | e in r.enrollments ensures r.enrollments[e].student in r.users && r.enrollments[e].course in r.courses {
      assert e !in gone;
    }
    forall g | g in r.grades ensures r.grades[g].enrollment in r.enrollments {
      assert db.grades[g].enrollment !in gone;
    }
  }

  // ---------------------------------------------------------------------------
  // Lesson ordering (`ordering = ['order']`)
  // ---------------------------------------------------------------------------

  /** No two lessons among `ids` share an `order` value. */
  ghost predicate DistinctOrders(lessons: map<LessonId, Lesson>, ids: set<LessonId>)
    requires ids <= lessons.Keys
  {
    forall a, b :: a in ids && b in ids && lessons[a].order == lessons[b].order ==> a == b
  }

  /** `m` is a lesson of `ids` with the least `order`. */
  predicate IsFirst(lessons: map<LessonId, Lesson>, ids: set<LessonId>, m: LessonId)
    requires ids <= lessons.Keys
  {
    m in ids && forall x :: x in ids ==> lessons[m].order <= lessons[x].order
  }

  /** A non-empty set of lessons has one with the least `order`. */
  lemma {:induction false} FirstExists(lessons: map<LessonId, Lesson>, ids: set<LessonId>)
    requires ids <= lessons.Keys && ids != {}
    ensures exists m :: IsFirst(lessons, ids, m)
    decreases ids
  {
    var y :| y in ids;
    if ids != {y} {
      FirstExists(lessons, ids - {y});
      var m :| IsFirst(lessons, ids - {y}, m);
      if lessons[y].order < lessons[m].order {
        assert IsFirst(lessons, ids, y);
      } else {
        assert IsFirst(lessons, ids, m);
      }
    } else {
      assert IsFirst(lessons, ids, y);
    }
  }

  /** With distinct orders there is only one first lesson. */
  lemma FirstIsUnique(lessons: map<LessonId, Lesson>, ids: set<LessonId>)
    requires ids <= lessons.Keys && DistinctOrders(lessons, ids)
    ensures forall a, b :: IsFirst(lessons, ids, a) && IsFirst(lessons, ids, b) ==> a == b
  {
  }

  /** `s` lists lessons by strictly ascending `order`. */
  ghost predicate AscendingOrder(lessons: map<LessonId, Lesson>, s: seq<LessonId>)
    requires forall k :: 0 <= k < |s| ==> s[k] in lessons
  {
    forall i, j :: 0 <= i < j < |s| ==> lessons[s[i]].order < lessons[s[j]].order
  }

  /** Putting a lesson that precedes all of an ascending list in front keeps it ascending. */
  lemma PrependAscending(lessons: map<LessonId, Lesson>, m: LessonId, rest: seq<LessonId>)
    requires m in lessons && forall k :: 0 <= k < |rest| ==> rest[k] in lessons
    requires AscendingOrder(lessons, rest)
    requires forall k :: 0 <= k < |rest| ==> lessons[m].order < lessons[rest[k]].order
    ensures AscendingOrder(lessons, [m] + rest)
  {
    var s := [m] + rest;
    forall i, j | 0 <= i < j < |s| ensures lessons[s[i]].order < lessons[s[j]].order {
      assert s[j] == rest[j - 1];
      if i > 0 { assert s[i] == rest[i - 1]; }
    }
  }

  /** The lessons `ids`, listed by ascending `order`. */
  function LessonsInOrder(lessons: map<LessonId, Lesson>, ids: set<LessonId>): (r: seq<LessonId>)
    requires ids <= lessons.Keys && DistinctOrders(lessons, ids)
    ensures |r| == |ids|
    ensures forall x :: x in r <==> x in ids
    ensures forall k :: 0 <= k < |r| ==> r[k] in lessons
    ensures AscendingOrder(lessons, r)
    decreases ids
  {
    if ids == {} then
      []
    else
      FirstExists(lessons, ids);
      FirstIsUnique(lessons, ids);
      var m :| IsFirst(lessons, ids, m);
      assert |ids - {m}| == |ids| - 1;
      assert DistinctOrders(lessons, ids - {m});
      var rest := LessonsInOrder(lessons, ids - {m});
      assert forall k :: 0 <= k < |rest| ==> lessons[m].order < lessons[rest[k]].order by {
        forall k | 0 <= k < |rest| ensures lessons[m].order < lessons[rest[k]].order {
          assert rest[k] in ids - {m};
        }
      }
      PrependAscending(lessons, m, rest);
      [m] + rest
  }

  /** The lessons of course `c`. */
  function LessonsOfCourse(db: Db, c: CourseId): set<LessonId>
  {
    set l | l in db.lessons && db.lessons[l].course == c
  }

  /** `Lesson.objects.filter(course_id=c)` under the default ordering. */
  function CourseLessons(db: Db, c: CourseId): (r: seq<LessonId>)
    requires Valid(db)
    ensures forall l :: l in r <==> l in db.lessons && db.lessons[l].course == c
    ensures forall k :: 0 <= k < |r| ==> r[k] in db.lessons
    ensures AscendingOrder(db.lessons, r)
  {
    LessonsInOrder(db.lessons, LessonsOfCourse(db, c))
  }
}
