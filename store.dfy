/**
 * The entity store the views read and write: one mutable table per model and
 * the auto-increment counter. Each primitive is one ORM call (`create`,
 * `save`, `delete`) and is specified by the function of Models it performs.
 */
module Store {
  import opened Wrappers
  import opened Models

  class Store {
    var users: map<UserId, User>
    var instructors: map<InstructorId, Instructor>
    var courses: map<CourseId, Course>
    var enrollments: map<EnrollmentId, Enrollment>
    var grades: map<GradeId, Grade>
    var lessons: map<LessonId, Lesson>
    /** The next primary key handed out; every key in use is below it. */
    var nextId: nat

    /** The tables as one database value. */
    function Db(): Db
      reads this
    {
      Models.Db(users, instructors, courses, enrollments, grades, lessons)
    }

    ghost predicate Valid()
      reads this
    {
      Models.Valid(Db()) && KeysBelow(Db(), nextId)
    }

    /** An empty database. */
    constructor ()
      ensures Valid() && Db() == EmptyDb && nextId == 0
    {
      users, instructors, courses := map[], map[], map[];
      enrollments, grades, lessons := map[], map[], map[];
      nextId := 0;
    }

    /** Draws the next primary key. */
    method NewId() returns (id: nat)
      requires Valid()
      modifies this`nextId
      ensures Valid() && FreshId(Db(), id)
      ensures id == old(nextId) && nextId == id + 1
    {
      id := nextId;
      nextId := nextId + 1;
    }

    /** `User.objects.create_user(...)`; false when the database refuses the row. */
    method CreateUser(u: User) returns (id: UserId, saved: bool)
      requires Valid()
      modifies this
      ensures Valid() && id == old(nextId) && nextId == id + 1
      ensures saved == AddUser(old(Db()), id, u).Some?
      ensures Db() == if saved then AddUser(old(Db()), id, u).value else old(Db())
    {
      id := NewId();
      var r := AddUser(Db(), id, u);
      saved := r.Some?;
      if saved {
        users := r.value.users;
        assert KeysBelow(Db(), nextId);
      }
    }

    /** `Instructor.objects.create(user=...)`; false when the database refuses the row. */
    method CreateInstructor(p: Instructor) returns (id: InstructorId, saved: bool)
      requires Valid() && p.user in users
      modifies this
      ensures Valid() && id == old(nextId) && nextId == id + 1
      ensures saved == AddInstructor(old(Db()), id, p).Some?
      ensures Db() == if saved then AddInstructor(old(Db()), id, p).value else old(Db())
    {
      id := NewId();
      var r := AddInstructor(Db(), id, p);
      saved := r.Some?;
      if saved {
        instructors := r.value.instructors;
        assert KeysBelow(Db(), nextId);
      }
    }

    /** `Course(...).save()` of a new course. */
    method CreateCourse(c: Course) returns (id: CourseId)
      requires Valid() && (c.instructor.Some? ==> c.instructor.value in instructors)
      modifies this
      ensures Valid() && id == old(nextId) && nextId == id + 1
      ensures Db() == AddCourse(old(Db()), id, c)
    {
      id := NewId();
      courses := AddCourse(Db(), id, c).courses;
      assert KeysBelow(Db(), nextId);
    }

    /** `course.save()` of an existing course. */
    method UpdateCourse(c: CourseId, course: Course)
      requires Valid() && c in courses
      requires course.instructor.Some? ==> course.instructor.value in instructors
      modifies this
      ensures Valid() && nextId == old(nextId)
      ensures Db() == SaveCourse(old(Db()), c, course)
    {
      courses := SaveCourse(Db(), c, course).courses;
    }

    /** `Enrollment(...).save()`; false when the pair is already enrolled. */
    method CreateEnrollment(e: Enrollment) returns (id: EnrollmentId, saved: bool)
      requires Valid() && e.student in users && e.course in courses
      modifies this
      ensures Valid() && id == old(nextId) && nextId == id + 1
      ensures saved == AddEnrollment(old(Db()), id, e).Some?
      ensures Db() == if saved then AddEnrollment(old(Db()), id, e).value else old(Db())
    {
      id := NewId();
      var r := AddEnrollment(Db(), id, e);
      saved := r.Some?;
      if saved {
        enrollments := r.value.enrollments;
        assert KeysBelow(Db(), nextId);
      }
    }

    /** `Grade(...).save()`. */
    method CreateGrade(g: Grade) returns (id: GradeId)
      requires Valid() && g.enrollment in enrollments
      modifies this
      ensures Valid() && id == old(nextId) && nextId == id + 1
      ensures Db() == AddGrade(old(Db()), id, g)
    {
      id := NewId();
      var r := AddGrade(Db(), id, g);
      grades := r.grades;
      assert KeysBelow(Db(), nextId);
    }

    /** `Lesson(...).save()` of a new lesson; false when its (course, order) is taken. */
    method CreateLesson(l: Lesson) returns (id: LessonId, saved: bool)
      requires Valid() && l.course in courses
      modifies this
      ensures Valid() && id == old(nextId) && nextId == id + 1
      ensures saved == AddLesson(old(Db()), id, l).Some?
      ensures Db() == if saved then AddLesson(old(Db()), id, l).value else old(Db())
    {
      id := NewId();
      var r := AddLesson(Db(), id, l);
      saved := r.Some?;
      if saved {
        lessons := r.value.lessons;
        assert KeysBelow(Db(), nextId);
      }
    }

    /** `lesson.save()` of an existing lesson; false when its (course, order) is taken by another. */
    method UpdateLesson(l: LessonId, lesson: Lesson) returns (saved: bool)
      requires Valid() && l in lessons && lesson.course in courses
      modifies this
      ensures Valid() && nextId == old(nextId)
      ensures saved == SaveLesson(old(Db()), l, lesson).Some?
      ensures Db() == if saved then SaveLesson(old(Db()), l, lesson).value else old(Db())
    {
      saved := !OrderTaken(lessons, lesson.course, lesson.order, Some(l));
      if saved {
        lessons := lessons[l := lesson];
      }
    }

    /** `lesson.delete()`: nothing refers to a lesson. */
    method DeleteLesson(l: LessonId)
      requires Valid()
      modifies this
      ensures Valid() && nextId == old(nextId)
      ensures Db() == old(Db()).(lessons := old(lessons) - {l})
    {
      lessons := lessons - {l};
    }

    /** `enrollment.delete()`: the grades on it go first. */
    method DeleteEnrollment(e: EnrollmentId)
      requires Valid()
      modifies this
      ensures Valid() && nextId == old(nextId)
      ensures Db() == Models.DeleteEnrollment(old(Db()), e)
    {
      grades := GradesOutside(grades, {e});
      enrollments := enrollments - {e};
    }

    /** `course.delete()`: the cascade takes its enrollments, their grades and its lessons with it. */
    method DeleteCourse(c: CourseId)
      requires Valid()
      modifies this
      ensures Valid() && nextId == old(nextId)
      ensures Db() == Models.DeleteCourse(old(Db()), c)
    {
      var r := Models.DeleteCourse(Db(), c);
      KeysBelowShrinks(Db(), r, nextId);
      courses, enrollments, grades, lessons := r.courses, r.enrollments, r.grades, r.lessons;
    }

    /** `instructor.delete()`: their courses stay, with the instructor set to null. */
    method DeleteInstructor(i: InstructorId)
      requires Valid()
      modifies this
      ensures Valid() && nextId == old(nextId)
      ensures Db() == Models.DeleteInstructor(old(Db()), i)
    {
      courses := CoursesWithout(courses, {i});
      instructors := instructors - {i};
    }

    /** `user.delete()`: their profile (nulling its courses) and their enrollments (with grades) go too. */
    method DeleteUser(u: UserId)
      requires Valid()
      modifies this
      ensures Valid() && nextId == old(nextId)
      ensures Db() == Models.DeleteUser(old(Db()), u)
    {
      var r := Models.DeleteUser(Db(), u);
      KeysBelowShrinks(Db(), r, nextId);
      users, instructors, courses := r.users, r.instructors, r.courses;
      enrollments, grades := r.enrollments, r.grades;
    }
  }
}
