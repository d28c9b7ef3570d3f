/**
 * The representations the API answers with, computed from the database and
 * the serializer context (the request, when the view passes one): instructor,
 * lesson, course (with the viewer-dependent `is_enrolled` flag and the ordered
 * lessons), enrollment (embedding its whole course) and course-with-
 * enrollments; and user registration, which creates the Instructor profile
 * that decides the new user's role.
 */
module Serializers {
  import opened Wrappers
  import opened Models
  import opened Responses
  import opened Permissions
  import Store

  datatype InstructorRepr = InstructorRepr(id: InstructorId, name: string, username: string, bio: string)

  datatype LessonRepr = LessonRepr(id: LessonId, title: string, content: string, order: int,
                                   createdAt: Timestamp, updatedAt: Timestamp)

  datatype CourseRepr = CourseRepr(id: CourseId, title: string, description: string,
                                   instructor: Option<InstructorRepr>, startDate: Date, endDate: Date,
                                   isEnrolled: bool, lessons: seq<LessonRepr>)

  datatype EnrollmentRepr = EnrollmentRepr(id: EnrollmentId, student: UserId, course: CourseRepr,
                                           enrollmentDate: Date)

  /** A course with its enrollments; the related manager has no ordering, so they are keyed by id. */
  datatype CourseWithEnrollmentsRepr = CourseWithEnrollmentsRepr(course: CourseRepr,
                                                                 enrollments: map<EnrollmentId, EnrollmentRepr>)

  /** The serializer context: the request, or None when the view passed no context. */
  type Context = Option<Requester>

  // ---------------------------------------------------------------------------
  // Field lists
  // ---------------------------------------------------------------------------

  /** `CourseSerializer.Meta.fields`. */
  const CourseFields: seq<string> :=
    ["id", "title", "description", "instructor", "start_date", "end_date", "is_enrolled", "lessons"]

  /** `CourseWithEnrollmentsSerializer.Meta.fields`: the course fields, then `enrollments`. */
  function CourseWithEnrollmentsFields(): (r: seq<string>)
    ensures |r| == |CourseFields| + 1
    ensures r[..|CourseFields|] == CourseFields && r[|CourseFields|] == "enrollments"
    ensures forall i, j :: 0 <= i < j < |r| ==> r[i] != r[j]
  {
    CourseFields + ["enrollments"]
  }

  // ---------------------------------------------------------------------------
  // Instructor and lesson representations
  // ---------------------------------------------------------------------------

  /**
   * The characters `str.strip` removes: those `str.isspace` accepts, that is
   * U+0009 to U+000D, U+001C to U+0020, U+0085, U+00A0, U+1680, U+2000 to
   * U+200A, U+2028, U+2029, U+202F, U+205F and U+3000.
   */
  predicate IsSpace(ch: char)
  {
    var c := ch as int;
    (9 <= c <= 13) || (28 <= c <= 32) || c == 0x85 || c == 0xA0 || c == 0x1680 ||
    (0x2000 <= c <= 0x200A) || c == 0x2028 || c == 0x2029 || c == 0x202F || c == 0x205F || c == 0x3000
  }

  /** `s` without its leading whitespace. */
  function TrimStart(s: string): (r: string)
    ensures |r| <= |s|
    ensures r != [] ==> !IsSpace(r[0])
  {
    if s != [] && IsSpace(s[0]) then TrimStart(s[1..]) else s
  }

  /** `TrimStart` removes a run of whitespace from the front and nothing else. */
  lemma {:induction false} TrimStartDropsSpaces(s: string)
    ensures TrimStart(s) == s[|s| - |TrimStart(s)|..]
    ensures forall k :: 0 <= k < |s| - |TrimStart(s)| ==> IsSpace(s[k])
    decreases |s|
  {
    if s != [] && IsSpace(s[0]) {
      TrimStartDropsSpaces(s[1..]);
    }
  }

  /** `s` without its trailing whitespace. */
  function TrimEnd(s: string): (r: string)
    ensures |r| <= |s| && r == s[..|r|]
    ensures r != [] ==> !IsSpace(r[|r| - 1])
  {
    if s != [] && IsSpace(s[|s| - 1]) then TrimEnd(s[..|s| - 1]) else s
  }

  /** `TrimEnd` removes a run of whitespace from the back and nothing else. */
  lemma {:induction false} TrimEndDropsSpaces(s: string)
    ensures forall k :: |TrimEnd(s)| <= k < |s| ==> IsSpace(s[k])
    decreases |s|
  {
    if s != [] && IsSpace(s[|s| - 1]) {
      TrimEndDropsSpaces(s[..|s| - 1]);
    }
  }

  /** `str.strip`: `s` without its leading and trailing whitespace. */
  function Strip(s: string): (r: string)
    ensures Trimmed(r)
  {
    TrimEnd(TrimStart(s))
  }

  /** Stripping removes whitespace only, and only from the two ends of `s`. */
  lemma StripRemovesOnlyEnds(s: string)
    ensures exists i, j ::
      (&& 0 <= i <= j <= |s| && Strip(s) == s[i..j]
       && (forall k :: 0 <= k < i ==> IsSpace(s[k]))
       && (forall k :: j <= k < |s| ==> IsSpace(s[k])))
  {
    var t := TrimStart(s);
    var r := TrimEnd(t);
    TrimStartDropsSpaces(s);
    TrimEndDropsSpaces(t);
    assert r == s[|s| - |t|..|s| - |t| + |r|];
  }

  /** `s` neither starts nor ends with whitespace. */
  predicate Trimmed(s: string)
  {
    s != [] ==> !IsSpace(s[0]) && !IsSpace(s[|s| - 1])
  }

  /** A string with no surrounding whitespace is its own stripped form. */
  lemma StripKeepsTrimmed(s: string)
    requires Trimmed(s)
    ensures Strip(s) == s
  {
    assert TrimStart(s) == s;
    assert TrimEnd(s) == s;
  }

  /** Stripping twice is stripping once. */
  lemma StripIdempotent(s: string)
    ensures Strip(Strip(s)) == Strip(s)
  {
    StripKeepsTrimmed(Strip(s));
  }

  /** `User.get_full_name`: first and last name joined by a space, stripped. */
  function FullName(u: User): (r: string)
    ensures r != [] ==> !IsSpace(r[0]) && !IsSpace(r[|r| - 1])
    ensures |r| <= |u.firstName| + 1 + |u.lastName|
  {
    Strip(u.firstName + " " + u.lastName)
  }

  /** First and last names without surrounding whitespace are joined by exactly one space. */
  lemma FullNameOfTrimmedNames(u: User)
    requires u.firstName != [] && u.lastName != [] && Trimmed(u.firstName) && Trimmed(u.lastName)
    ensures FullName(u) == u.firstName + " " + u.lastName
  {
    var joined := u.firstName + " " + u.lastName;
    assert joined[0] == u.firstName[0] && joined[|joined| - 1] == u.lastName[|u.lastName| - 1];
    StripKeepsTrimmed(joined);
  }

  /** `InstructorSerializer`: id, the user's full name and username, bio. */
  function InstructorRepresentation(db: Db, i: InstructorId): (r: InstructorRepr)
    requires Valid(db) && i in db.instructors
    ensures r.id == i && r.bio == db.instructors[i].bio
    ensures r.username == db.users[db.instructors[i].user].username
    ensures r.name == FullName(db.users[db.instructors[i].user])
  {
    var user := db.users[db.instructors[i].user];
    InstructorRepr(i, FullName(user), user.username, db.instructors[i].bio)
  }

  /** `LessonSerializer`. */
  function LessonRepresentation(db: Db, l: LessonId): (r: LessonRepr)
    requires l in db.lessons
    ensures r.id == l && r.title == db.lessons[l].title && r.content == db.lessons[l].content
    ensures r.order == db.lessons[l].order
    ensures r.createdAt == db.lessons[l].createdAt && r.updatedAt == db.lessons[l].updatedAt
  {
    var lesson := db.lessons[l];
    LessonRepr(l, lesson.title, lesson.content, lesson.order, lesson.createdAt, lesson.updatedAt)
  }

  /** The representations of the lessons `ids`, in the same order. */
  function LessonReprs(db: Db, ids: seq<LessonId>): (r: seq<LessonRepr>)
    requires forall k :: 0 <= k < |ids| ==> ids[k] in db.lessons
    ensures |r| == |ids|
    ensures forall k :: 0 <= k < |ids| ==> r[k] == LessonRepresentation(db, ids[k])
  {
    seq(|ids|, k requires 0 <= k < |ids| => LessonRepresentation(db, ids[k]))
  }

  // ---------------------------------------------------------------------------
  // Course and enrollment representations
  // ---------------------------------------------------------------------------

  /** `CourseSerializer.get_is_enrolled`. */
  predicate GetIsEnrolled(db: Db, ctx: Context, c: CourseId): (r: bool)
    ensures r ==> ctx.Some? && ctx.value.Authenticated?
    ensures ctx.Some? && ctx.value.Authenticated? ==> (r <==> IsEnrolledIn(db, ctx.value.id, c))
  {
    match ctx
    case None => false
    case Some(req) => req.Authenticated? && IsEnrolledIn(db, req.id, c)
  }

  /** Without a request, or for the anonymous user, a course never shows as enrolled. */
  lemma NoViewerNotEnrolled(db: Db, ctx: Context, c: CourseId)
    requires ctx.None? || ctx == Some(Anonymous)
    ensures !GetIsEnrolled(db, ctx, c)
  {
  }

  /** For an authenticated viewer the flag is exactly whether their enrollment row exists. */
  lemma IsEnrolledIffEnrollment(db: Db, u: UserId, c: CourseId)
    requires Valid(db)
    ensures GetIsEnrolled(db, Some(Authenticated(u)), c) <==> EnrollmentOf(db.enrollments, u, c).Some?
  {
    if GetIsEnrolled(db, Some(Authenticated(u)), c) {
      var e :| e in db.enrollments && db.enrollments[e].student == u && db.enrollments[e].course == c;
      assert EnrollmentOf(db.enrollments, u, c) == Some(e);
    }
  }

  /** The representations of a course's lessons, listed by ascending order, keep those three facts. */
  lemma LessonReprsOfCourse(db: Db, c: CourseId, ids: seq<LessonId>)
    requires forall k :: 0 <= k < |ids| ==> ids[k] in db.lessons
    requires forall l :: l in ids <==> l in db.lessons && db.lessons[l].course == c
    requires AscendingOrder(db.lessons, ids)
    ensures var r := LessonReprs(db, ids);
      && (forall k :: 0 <= k < |r| ==>
            r[k].id in db.lessons && db.lessons[r[k].id].course == c && r[k] == LessonRepresentation(db, r[k].id))
      && (forall l :: l in db.lessons && db.lessons[l].course == c ==> exists k :: 0 <= k < |r| && r[k].id == l)
      && (forall i, j :: 0 <= i < j < |r| ==> r[i].order < r[j].order)
  {
    var r := LessonReprs(db, ids);
    forall k | 0 <= k < |r|
      ensures r[k].id == ids[k] && r[k].order == db.lessons[ids[k]].order
    {
      assert r[k] == LessonRepresentation(db, ids[k]);
    }
    forall k | 0 <= k < |r|
      ensures r[k].id in db.lessons && db.lessons[r[k].id].course == c
    {
      assert ids[k] in ids;
    }
    forall l | l in db.lessons && db.lessons[l].course == c
      ensures exists k :: 0 <= k < |r| && r[k].id == l
    {
      var k :| 0 <= k < |ids| && ids[k] == l;
      assert r[k].id == l;
    }
  }

  /** The nested `lessons` of a course: exactly the course's lessons, by ascending order. */
  function CourseLessonReprs(db: Db, c: CourseId): (r: seq<LessonRepr>)
    requires Valid(db)
    ensures forall k :: 0 <= k < |r| ==>
      r[k].id in db.lessons && db.lessons[r[k].id].course == c && r[k] == LessonRepresentation(db, r[k].id)
    ensures forall l :: l in db.lessons && db.lessons[l].course == c ==> exists k :: 0 <= k < |r| && r[k].id == l
    ensures forall i, j :: 0 <= i < j < |r| ==> r[i].order < r[j].order
  {
    var ids := CourseLessons(db, c);
    LessonReprsOfCourse(db, c, ids);
    LessonReprs(db, ids)
  }

  /** `CourseSerializer`. */
  function CourseRepresentation(db: Db, ctx: Context, c: CourseId): (r: CourseRepr)
    requires Valid(db) && c in db.courses
    ensures r.id == c && r.title == db.courses[c].title && r.description == db.courses[c].description
    ensures r.startDate == db.courses[c].startDate && r.endDate == db.courses[c].endDate
    ensures r.instructor.Some? <==> db.courses[c].instructor.Some?
    ensures r.instructor.Some? ==> r.instructor == Some(InstructorRepresentation(db, db.courses[c].instructor.value))
    ensures r.isEnrolled <==> GetIsEnrolled(db, ctx, c)
    ensures r.lessons == CourseLessonReprs(db, c)
  {
    var course := db.courses[c];
    CourseRepr(c, course.title, course.description,
               match course.instructor
               case None => None
               case Some(i) => Some(InstructorRepresentation(db, i)),
               course.startDate, course.endDate, GetIsEnrolled(db, ctx, c), CourseLessonReprs(db, c))
  }

  /** `EnrollmentSerializer`: `course` is the whole representation of the enrollment's own course. */
  function EnrollmentRepresentation(db: Db, ctx: Context, e: EnrollmentId): (r: EnrollmentRepr)
    requires Valid(db) && e in db.enrollments
    ensures r.id == e && r.student == db.enrollments[e].student
    ensures r.enrollmentDate == db.enrollments[e].enrollmentDate
    ensures r.course == CourseRepresentation(db, ctx, db.enrollments[e].course)
    ensures r.course.id == db.enrollments[e].course
    ensures r.course.isEnrolled == GetIsEnrolled(db, ctx, db.enrollments[e].course)
    ensures ctx == Some(Authenticated(db.enrollments[e].student)) ==> r.course.isEnrolled
  {
    var enrollment := db.enrollments[e];
    EnrollmentRepr(e, enrollment.student, CourseRepresentation(db, ctx, enrollment.course),
                   enrollment.enrollmentDate)
  }

  /** `CourseWithEnrollmentsSerializer`: the course and every enrollment in it. */
  function CourseWithEnrollmentsRepresentation(db: Db, ctx: Context, c: CourseId): (r: CourseWithEnrollmentsRepr)
    requires Valid(db) && c in db.courses
    ensures r.course == CourseRepresentation(db, ctx, c)
    ensures r.enrollments.Keys == EnrollmentsOfCourse(db, c)
    ensures forall e :: e in r.enrollments ==> r.enrollments[e] == EnrollmentRepresentation(db, ctx, e)
    ensures forall e :: e in r.enrollments ==>
      r.enrollments[e].student == db.enrollments[e].student && r.enrollments[e].course.id == c
  {
    CourseWithEnrollmentsRepr(CourseRepresentation(db, ctx, c),
                              map e | e in EnrollmentsOfCourse(db, c) :: EnrollmentRepresentation(db, ctx, e))
  }

  // ---------------------------------------------------------------------------
  // Registration (`UserSerializer`)
  // ---------------------------------------------------------------------------

  datatype UserType = StudentType | InstructorType

  /** The choice a `user_type` value stands for. */
  function UserTypeName(t: UserType): string
  {
    match t
    case StudentType => "student"
    case InstructorType => "instructor"
  }

  /** The `user_type` ChoiceField: only 'student' and 'instructor' are accepted. */
  function ParseUserType(s: string): (r: Option<UserType>)
    ensures r.Some? <==> s == "student" || s == "instructor"
    ensures r.Some? ==> UserTypeName(r.value) == s
  {
    if s == "student" then Some(StudentType)
    else if s == "instructor" then Some(InstructorType)
    else None
  }

  /** Every choice is accepted under its own name. */
  lemma UserTypeRoundTrip(t: UserType)
    ensures ParseUserType(UserTypeName(t)) == Some(t)
  {
  }

  /**
   * The registration payload, in `UserSerializer`'s field order; an absent
   * field is the empty string. The password is validated here and then handed
   * to hashing, which is not modelled.
   */
  datatype Registration = Registration(username: string, email: string, password: string, firstName: string,
                                       lastName: string, userType: string)

  /**
   * The user row a valid payload becomes: the four character fields are
   * stripped of surrounding whitespace, as `CharField` does by default.
   */
  function NewUser(data: Registration): (u: User)
    ensures u.username == Strip(data.username) && u.email == Strip(data.email)
    ensures u.firstName == Strip(data.firstName) && u.lastName == Strip(data.lastName)
  {
    User(Strip(data.username), Strip(data.email), Strip(data.firstName), Strip(data.lastName))
  }

  /**
   * `ProhibitNullCharactersValidator`, which every `CharField` of the
   * serializer carries (`user_type` is a `ChoiceField` and has none): the text
   * fields hold no U+0000.
   */
  predicate NullFree(data: Registration)
  {
    '\0' !in data.username && '\0' !in data.email && '\0' !in data.password &&
    '\0' !in data.firstName && '\0' !in data.lastName
  }

  /** A stored user already has this username (`User.username` is unique). */
  predicate UsernameTaken(db: Db, name: string): (r: bool)
    ensures !r <==> forall u :: u in db.users ==> db.users[u].username != name
  {
    exists u :: u in db.users && db.users[u].username == name
  }

  /** The two pairs of registration field names of equal length differ. */
  lemma FieldNamesDiffer()
    ensures "username" != "password" && "last_name" != "user_type"
  {
    assert "username"[0] != "password"[0];
    assert "last_name"[0] != "user_type"[0];
  }

  /**
   * The fields `UserSerializer` validation refuses: a username that is blank
   * or taken once stripped, a password that is blank once stripped (a required
   * `CharField`), any text field holding U+0000, a `user_type` outside the
   * choices.
   */
  function RegistrationErrors(db: Db, data: Registration): (r: set<string>)
    ensures "username" in r <==>
      Strip(data.username) == [] || '\0' in data.username || UsernameTaken(db, Strip(data.username))
    ensures "email" in r <==> '\0' in data.email
    ensures "password" in r <==> Strip(data.password) == [] || '\0' in data.password
    ensures "first_name" in r <==> '\0' in data.firstName
    ensures "last_name" in r <==> '\0' in data.lastName
    ensures "user_type" in r <==> ParseUserType(data.userType).None?
    ensures r <= {"username", "email", "password", "first_name", "last_name", "user_type"}
  {
    FieldNamesDiffer();
    CredentialErrors(db, data) + NullCharacterErrors(data) +
    (if ParseUserType(data.userType).None? then {"user_type"} else {})
  }

  /** The required text fields: blank once stripped, a null character, or a taken username. */
  function CredentialErrors(db: Db, data: Registration): (r: set<string>)
    ensures "username" in r <==>
      Strip(data.username) == [] || '\0' in data.username || UsernameTaken(db, Strip(data.username))
    ensures "password" in r <==> Strip(data.password) == [] || '\0' in data.password
    ensures r <= {"username", "password"}
  {
    FieldNamesDiffer();
    var name := Strip(data.username);
    (if name == [] || '\0' in data.username || UsernameTaken(db, name) then {"username"} else {}) +
    (if Strip(data.password) == [] || '\0' in data.password then {"password"} else {})
  }

  /** The optional text fields, which only the null-character check refuses. */
  function NullCharacterErrors(data: Registration): (r: set<string>)
    ensures "email" in r <==> '\0' in data.email
    ensures "first_name" in r <==> '\0' in data.firstName
    ensures "last_name" in r <==> '\0' in data.lastName
    ensures r <= {"email", "first_name", "last_name"}
  {
    (if '\0' in data.email then {"email"} else {}) +
    (if '\0' in data.firstName then {"first_name"} else {}) +
    (if '\0' in data.lastName then {"last_name"} else {})
  }

  /** No Instructor row points at user `u`. */
  ghost predicate NoProfile(db: Db, u: UserId)
  {
    forall i :: i in db.instructors ==> db.instructors[i].user != u
  }

  /** A fresh user key has no profile yet: every profile points at a stored user. */
  lemma FreshUserHasNoProfile(db: Db, uid: UserId)
    requires Valid(db) && FreshId(db, uid)
    ensures NoProfile(db, uid)
  {
    forall i | i in db.instructors ensures db.instructors[i].user != uid {
      assert db.instructors[i].user in db.users;
    }
  }

  /**
   * Validation, then `UserSerializer.create`: save the user, and give them an
   * Instructor profile when they registered as an instructor.
   */
  function RegisterStep(db: Db, data: Registration, uid: UserId, iid: InstructorId): (r: Step<UserId>)
    requires Valid(db) && FreshId(db, uid) && FreshId(db, iid) && uid != iid
    ensures Valid(r.db)
    ensures r.result.Ok? <==>
      && (data.userType == "student" || data.userType == "instructor")
      && Strip(data.username) != [] && !UsernameTaken(db, Strip(data.username))
      && Strip(data.password) != [] && NullFree(data)
    ensures r.result.Err? ==> r.db == db && r.result.error == Invalid(RegistrationErrors(db, data))
    ensures r.result.Ok? ==> r.result.value == uid && r.db.users == db.users[uid := NewUser(data)]
    ensures r.result.Ok? && data.userType == "instructor" ==>
      r.db.instructors == db.instructors[iid := Instructor(uid, "")]
    ensures data.userType != "instructor" ==> r.db.instructors == db.instructors
    ensures r.result.Ok? ==> (Models.IsInstructor(r.db, uid) <==> data.userType == "instructor")
    ensures r.result.Ok? ==> (Models.IsStudent(r.db, uid) <==> data.userType == "student")
    ensures r.db.courses == db.courses && r.db.enrollments == db.enrollments
    ensures r.db.grades == db.grades && r.db.lessons == db.lessons
  {
    var name := Strip(data.username);
    if name == [] || UsernameTaken(db, name) || Strip(data.password) == [] || !NullFree(data) ||
       ParseUserType(data.userType).None? then
      Step(db, Err(Invalid(RegistrationErrors(db, data))))
    else
      var t := ParseUserType(data.userType).value;
      var saved := AddUser(db, uid, NewUser(data)).value;
      assert NoProfile(saved, uid) by {
        FreshUserHasNoProfile(db, uid);
      }
      if t == InstructorType then
        var withProfile := AddInstructor(saved, iid, Instructor(uid, ""));
        assert Models.IsInstructor(withProfile.value, uid);
        Step(withProfile.value, Ok(uid))
      else
        assert !Models.IsInstructor(saved, uid);
        Step(saved, Ok(uid))
  }

  /** A username cannot be registered twice: the second attempt is refused on `username`. */
  lemma RegisterTwiceRefused(db: Db, first: Registration, second: Registration, uid1: UserId, iid1: InstructorId,
                             uid2: UserId, iid2: InstructorId)
    requires Valid(db) && FreshId(db, uid1) && FreshId(db, iid1) && uid1 != iid1
    requires RegisterStep(db, first, uid1, iid1).result.Ok? && Strip(second.username) == Strip(first.username)
    requires var s := RegisterStep(db, first, uid1, iid1).db; FreshId(s, uid2) && FreshId(s, iid2) && uid2 != iid2
    ensures var s := RegisterStep(db, first, uid1, iid1).db;
      var again := RegisterStep(s, second, uid2, iid2);
      again.db == s && again.result.Err? && again.result.error.Invalid? && "username" in again.result.error.fields
  {
    var s := RegisterStep(db, first, uid1, iid1).db;
    assert s.users[uid1].username == Strip(second.username);
  }

  /** An accepted registration saves the user, then the profile when the type is 'instructor'. */
  lemma AcceptedRegistration(db: Db, data: Registration, uid: UserId, iid: InstructorId)
    requires Valid(db) && FreshId(db, uid) && FreshId(db, iid) && uid != iid
    requires Strip(data.username) != [] && !UsernameTaken(db, Strip(data.username)) && Strip(data.password) != []
    requires NullFree(data)
    requires ParseUserType(data.userType).Some?
    ensures AddUser(db, uid, NewUser(data)).Some?
    ensures AddInstructor(AddUser(db, uid, NewUser(data)).value, iid, Instructor(uid, "")).Some?
    ensures var saved := AddUser(db, uid, NewUser(data)).value;
      RegisterStep(db, data, uid, iid) ==
        if data.userType == "instructor" then Step(saved.(instructors := saved.instructors[iid := Instructor(uid, "")]), Ok(uid))
        else Step(saved, Ok(uid))
  {
    FreshUserHasNoProfile(db, uid);
  }

  /** The instructor branch of `UserSerializer.create`: the user row, then the profile on the next key. */
  lemma InstructorRegistered(db: Db, data: Registration, uid: UserId, iid: InstructorId, saved: Db, created: bool, after: Db)
    requires Valid(db) && FreshId(db, uid) && FreshId(db, iid) && uid != iid
    requires Strip(data.username) != [] && !UsernameTaken(db, Strip(data.username)) && Strip(data.password) != []
    requires NullFree(data)
    requires data.userType == "instructor"
    requires AddUser(db, uid, NewUser(data)) == Some(saved)
    requires created == AddInstructor(saved, iid, Instructor(uid, "")).Some?
    requires after == if created then AddInstructor(saved, iid, Instructor(uid, "")).value else saved
    ensures created
    ensures Step(after, Ok(uid)) == RegisterStep(db, data, uid, iid)
  {
    AcceptedRegistration(db, data, uid, iid);
  }

  /** `UserSerializer.create` on the store: the user takes the next key, the profile the one after. */
  method Register(store: Store.Store, data: Registration) returns (r: Result<UserId>)
    requires store.Valid()
    modifies store
    ensures store.Valid()
    ensures Step(store.Db(), r) == RegisterStep(old(store.Db()), data, old(store.nextId), old(store.nextId) + 1)
  {
    var name := Strip(data.username);
    if name == [] || UsernameTaken(store.Db(), name) || Strip(data.password) == [] || !NullFree(data) ||
       ParseUserType(data.userType).None? {
      return Err(Invalid(RegistrationErrors(store.Db(), data)));
    }
    ghost var before := store.Db();
    var userType := ParseUserType(data.userType);
    var uid, userSaved := store.CreateUser(NewUser(data));
    assert userSaved;
    ghost var iid := old(store.nextId) + 1;
    assert FreshId(before, iid);
    if userType.value == InstructorType {
      ghost var saved := store.Db();
      var id, created := store.CreateInstructor(Instructor(uid, ""));
      InstructorRegistered(before, data, uid, id, saved, created, store.Db());
    } else {
      assert Step(store.Db(), Ok(uid)) == RegisterStep(before, data, uid, iid) by {
        AcceptedRegistration(before, data, uid, iid);
      }
    }
    r := Ok(uid);
  }
}
