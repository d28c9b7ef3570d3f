# Student course management: a verified model

This project models the core of a Django REST backend for course management.

- **Users:** users register as students or instructors. Being an instructor means having an Instructor profile row.
- **Courses:** instructors create courses.
- **Students:** students enroll in courses and unenroll from them.
- **Grades:** instructors grade enrollments in their own courses.
- **Lessons:** courses carry lessons, listed by their `order`.

The model has these modules:

- `Models` (`models.dfy`) holds the entities as datatypes and the database as a value `Db` of six tables.
  - The declared constraints are an invariant `Valid`:
    - one user per username (the auth user table's unique `username`);
    - one profile per user;
    - one enrollment per (student, course);
    - one lesson per (course, order);
    - every foreign key refers to a stored row.
  - Inserts and updates return `None` when the database would refuse the row: a taken username, a second profile, a second enrollment of a pair, or a taken lesson order.
  - The on-delete rules (CASCADE, SET_NULL) are functions that keep the invariant.
  - The lesson ordering is a sort by `order`.
- `Permissions` (`permissions.dfy`) holds the requester, role resolution, and the two permission classes.
  - It also holds the framework's rule for a refused request: 401 for the anonymous user, 403 otherwise.
- `Responses` (`responses.dfy`) holds the error responses and `Step`, which pairs the database after a request with the answer.
- `Serializers` (`serializers.dfy`) holds the representations the API answers with, including the viewer-dependent `is_enrolled` flag, and user registration.
  - Registration strips surrounding whitespace from the username, e-mail, password, first and last name before validating them, as the framework's `CharField` does; whitespace is the set Python's `str.strip` removes. The `user_type` is a `ChoiceField`: it is matched exactly and never stripped.
  - A username, a password and a `user_type` are required: a blank (once stripped) or absent username or password is refused, and so is a taken username.
  - Every `CharField` refuses a value holding the null character U+0000.
- `Store` (`store.dfy`) is the mutable entity store: a class with one map per table and the key counter.
  - Each method is one ORM call.
  - Each is proved to perform the corresponding `Models` function and to keep the invariant.
- `Views` (`views.dfy`) holds the viewsets.
  - Every endpoint is specified by a function of the database, the request and the payload, giving a `Step`.
  - The state-changing endpoints are also methods of viewset classes. These classes hold the store and the request, and the methods are proved to produce exactly that `Step` on the store.
  - Querysets and read-only endpoints are functions.
- `Properties` (`properties.dfy`) relates several requests:
  - enrolling twice equals enrolling once;
  - unenrolling undoes enrolling;
  - the enrollment status follows both;
  - a new grade is visible to its grader;
  - a duplicate lesson order is refused;
  - a registration/enrollment scenario.

Inputs the code takes from its environment are parameters of the model:
- the clock (`today`, `now`);
- the next primary key;
- the authenticated user, which the token authentication resolves.

## Behaviour a reader might not expect

The model follows the code:

- **Course writes:** any instructor may update or delete any course (`IsInstructorOrReadOnly` has no object check), not only the owner.
- **Lesson permissions:** `permission_classes = [AllowAny]` on lessons.
  - Anyone, including the anonymous user, may update or delete any lesson.
  - Creating a lesson as a requester without an Instructor profile reads `request.user.instructor` and fails with an uncaught error (500), not 403.
- **Grade list:** a student's grade list is refused (403, "Only instructors can access this view.") by `IsInstructor`. The student branch of the grade queryset is therefore unreachable through the view.
- **Grade creation:** it validates `enrollment` first, so an unknown enrollment gives 400. The view's own 404 is never reached.
- **Enrollment creation:** the payload's `student` must name a stored user, even though the saved enrollment is always the requester's.
- **Course enrollments:** the course-with-enrollments endpoint passes no serializer context, so every `is_enrolled` in it is false.

## Model

| member | source | states |
|---|---|---|
| Models.ProfileOf | courses/models.py:5-6 | the user's profile is the one Instructor row naming them, None when no row does |
| Models.IsInstructor | courses/models.py:45-47 | a user is an instructor iff some Instructor row names them |
| Models.IsStudent | courses/models.py:49-51 | a user is a student iff no Instructor row names them |
| Models.EnrollmentOf | courses/models.py:27-28 | under the unique pair constraint, the found enrollment is exactly the one of (student, course), None if there is none |
| Models.AddUser | courses/serializers.py:66-68 | refused iff a stored user has the username; otherwise the users table gains exactly the new row under the new key, the other tables are unchanged and the invariant holds |
| Models.NewUserKeepsValid | courses/serializers.py:66-68 | a fresh user row with an unused username keeps every constraint, username uniqueness included |
| Models.NewInstructorKeepsValid | courses/models.py:6 | a fresh profile for a user with none keeps every constraint and is that user's profile |
| Models.AddInstructor | courses/models.py:6 | refused iff the user already has a profile; otherwise the new row becomes the user's profile and the invariant holds |
| Models.AddCourse | courses/models.py:12-17 | the courses table gains exactly the new row; the other tables are unchanged and the invariant holds |
| Models.SaveCourse | courses/models.py:12-17 | the course takes the new value and every other course keeps its own; keys, other tables and the invariant are kept |
| Models.AddEnrollment | courses/models.py:22-28 | refused iff the pair is already enrolled; otherwise the new row is the pair's enrollment |
| Models.NewEnrollmentKeepsValid | courses/models.py:22-28 | a fresh enrollment of a pair not yet enrolled keeps every constraint and is the pair's enrollment |
| Models.DeleteUndoesAddEnrollment | courses/models.py:22-36 | deleting a just-inserted enrollment gives back the database it was inserted into: no grade refers to it |
| Models.AddGrade | courses/models.py:33-36 | the grades table gains exactly the new row; the other tables are unchanged and the invariant holds |
| Models.AddLesson | courses/models.py:56-66 | refused iff the course already has a lesson with that order; otherwise exactly that row is added |
| Models.SaveLesson | courses/models.py:64-66 | refused iff another lesson of the course has that order; otherwise exactly that row changes |
| Models.DeleteEnrollment | courses/models.py:34 | removes the enrollment and exactly the grades on it; all other tables unchanged |
| Models.DeleteCourse | courses/models.py:24-59 | removes the course, exactly its enrollments, the grades on them and its lessons; surviving rows unchanged |
| Models.CourseDeletionKeepsValid | courses/models.py:24-59 | the rows the course cascade keeps satisfy every constraint |
| Models.DeleteInstructor | courses/models.py:17 | removes the profile; its courses stay with instructor null, other courses and tables unchanged |
| Models.DeleteUser | courses/models.py:6-23 | removes the user, their profiles (nulling those courses' instructor), their enrollments and the grades on them; every surviving row keeps its value |
| Models.UserDeletionKeepsValid | courses/models.py:6-23 | the rows the user cascade keeps satisfy every constraint |
| Models.FirstExists | courses/models.py:65 | every non-empty set of lessons has one of least order |
| Models.LessonsInOrder | courses/models.py:65 | lists exactly the given lessons, each once, by strictly ascending order |
| Models.CourseLessons | courses/models.py:64-66 | lists exactly the course's lessons by strictly ascending order |
| Permissions.RoleOf | courses/permissions.py:10 | a profile is found only for an authenticated user, and it is that user's own |
| Permissions.Deny | courses/views.py:17-18 | a refused anonymous request is 401 (NotAuthenticated); a refused user gets 403 with the permission's message |
| Permissions.IsInstructor | courses/permissions.py:9-10 | grants iff the user is authenticated and some Instructor row names them |
| Permissions.IsInstructorOrReadOnly | courses/permissions.py:16-23 | grants iff the method is safe or some Instructor row names the authenticated user |
| Permissions.SafeMethodsGranted | courses/permissions.py:19-20 | IsInstructorOrReadOnly grants GET, HEAD and OPTIONS to every requester |
| Permissions.WritesNeedProfile | courses/permissions.py:22-23 | a write is granted iff the user has a profile, never to the anonymous user |
| Permissions.IsInstructorImpliesOrReadOnly | courses/permissions.py:9-23 | whatever IsInstructor grants, IsInstructorOrReadOnly grants for every method |
| Responses.StatusCode | courses/views.py:9-11 | every error is a 4xx or 5xx status, and 500 exactly for the uncaught database and attribute errors |
| Serializers.CourseWithEnrollmentsFields | courses/serializers.py:47-48 | the course fields in order, then `enrollments`, all distinct |
| Serializers.TrimStart | courses/serializers.py:6 | the result is no longer than the input and does not start with whitespace |
| Serializers.TrimStartDropsSpaces | courses/serializers.py:6 | the result is a suffix of the input, and everything removed before it is whitespace |
| Serializers.TrimEnd | courses/serializers.py:6 | the result is a prefix of the input and does not end with whitespace |
| Serializers.TrimEndDropsSpaces | courses/serializers.py:6 | everything removed after the result is whitespace |
| Serializers.Strip | courses/serializers.py:6 | the result neither starts nor ends with whitespace |
| Serializers.StripRemovesOnlyEnds | courses/serializers.py:6 | the result is a slice of the input, and only whitespace is cut from either end |
| Serializers.StripKeepsTrimmed | courses/serializers.py:6 | a string without surrounding whitespace is left as it is |
| Serializers.StripIdempotent | courses/serializers.py:6 | stripping twice is stripping once |
| Serializers.FullName | courses/serializers.py:6 | the joined first and last name has no surrounding whitespace and is no longer than both names and the space |
| Serializers.FullNameOfTrimmedNames | courses/serializers.py:6 | non-empty names without surrounding whitespace are joined by exactly one space |
| Serializers.InstructorRepresentation | courses/serializers.py:5-11 | the profile's id and bio, the user's username and the user's full name |
| Serializers.LessonRepresentation | courses/serializers.py:13-16 | the lesson's id, title, content, order and both timestamps |
| Serializers.GetIsEnrolled | courses/serializers.py:27-31 | true only for an authenticated viewer, and then iff their enrollment in the course exists |
| Serializers.NoViewerNotEnrolled | courses/serializers.py:27-31 | without a request, or for the anonymous user, `is_enrolled` is false |
| Serializers.IsEnrolledIffEnrollment | courses/serializers.py:29-30 | for a user, `is_enrolled` holds iff their enrollment in the course exists |
| Serializers.LessonReprsOfCourse | courses/serializers.py:21 | representing the course's ordered lesson ids yields exactly its lessons, ascending by order |
| Serializers.CourseLessonReprs | courses/serializers.py:21 | the nested lessons are exactly the course's lessons, ascending by order |
| Serializers.CourseRepresentation | courses/serializers.py:18-31 | the course's fields, its instructor's full representation (null iff the course has none), the viewer's `is_enrolled` and its ordered lessons |
| Serializers.EnrollmentRepresentation | courses/serializers.py:33-41 | embeds the full representation of the enrollment's own course, with the same context |
| Serializers.CourseWithEnrollmentsRepresentation | courses/serializers.py:44-48 | the course's full representation and exactly its enrollments, each the full enrollment representation |
| Serializers.ParseUserType | courses/serializers.py:56 | accepts exactly 'student' and 'instructor' |
| Serializers.UserTypeRoundTrip | courses/serializers.py:56 | every choice parses back from its own name |
| Serializers.NewUser | courses/serializers.py:59-61 | the saved user holds each sent field stripped of surrounding whitespace |
| Serializers.UsernameTaken | courses/serializers.py:59-61 | true iff some stored user has that username |
| Serializers.RegistrationErrors | courses/serializers.py:55-61 | refuses `username` iff blank or taken once stripped or holding U+0000, `password` iff blank once stripped or holding U+0000, `email`, `first_name` and `last_name` iff holding U+0000, and `user_type` iff not a choice; no other field is refused |
| Serializers.CredentialErrors | courses/serializers.py:57-61 | refuses `username` iff blank, taken or holding U+0000, and `password` iff blank or holding U+0000; nothing else |
| Serializers.NullCharacterErrors | courses/serializers.py:58-61 | refuses `email`, `first_name` and `last_name` each iff it holds U+0000; nothing else |
| Serializers.FreshUserHasNoProfile | courses/serializers.py:66-72 | no Instructor profile points at a fresh user key |
| Serializers.RegisterStep | courses/serializers.py:55-74 | succeeds iff the type is a choice, the stripped username is non-blank and free, the stripped password is non-blank, and no text field holds U+0000; the users table gains exactly the new user, the profiles gain exactly one row iff 'instructor'; the user is an instructor iff 'instructor', a student iff 'student'; refused registrations change nothing; courses, enrollments, grades and lessons never change |
| Serializers.RegisterTwiceRefused | courses/serializers.py:59-61 | a username already registered is refused, with no change, even when sent with other surrounding whitespace |
| Serializers.AcceptedRegistration | courses/serializers.py:63-74 | an accepted registration is the user insert, followed by the profile insert exactly for 'instructor' |
| Serializers.InstructorRegistered | courses/serializers.py:66-72 | for 'instructor', saving the user and then its profile always succeeds and gives RegisterStep's result |
| Serializers.Register | courses/serializers.py:63-74 | on the store, does exactly what RegisterStep says |
| Store.Store.CreateUser | courses/serializers.py:66-68 | performs AddUser with the next key; reports whether the row was saved |
| Store.Store.CreateInstructor | courses/serializers.py:72 | performs AddInstructor; saved iff the database accepts it |
| Store.Store.CreateCourse | courses/views.py:21 | performs AddCourse |
| Store.Store.UpdateCourse | courses/views.py:14-18 | performs SaveCourse |
| Store.Store.CreateEnrollment | courses/views.py:32 | performs AddEnrollment; saved iff the pair was not enrolled |
| Store.Store.CreateGrade | courses/views.py:114 | performs AddGrade |
| Store.Store.CreateLesson | courses/views.py:137 | performs AddLesson; saved iff the order is free in the course |
| Store.Store.UpdateLesson | courses/views.py:124-131 | performs SaveLesson; saved iff no other lesson of the course has the order |
| Store.Store.DeleteLesson | courses/views.py:124-131 | removes exactly that lesson |
| Store.Store.DeleteEnrollment | courses/views.py:70 | performs DeleteEnrollment |
| Store.Store.DeleteCourse | courses/views.py:14-15 | performs DeleteCourse |
| Store.Store.DeleteInstructor | courses/models.py:17 | performs DeleteInstructor |
| Store.Store.DeleteUser | courses/models.py:6-23 | performs DeleteUser |
| Views.ListCourses | courses/views.py:14-18 | every requester gets every course, each in its full representation with the requester's `is_enrolled` |
| Views.RetrieveCourse | courses/views.py:14-18 | every requester gets a stored course in its full representation; 404 exactly for an unknown one |
| Views.CreateCourseStep | courses/views.py:18-21 | succeeds iff the requester has a profile, which becomes the owner; refused creations change nothing; users and profiles never change |
| Views.UpdateCourseStep | courses/views.py:14-18 | any instructor updates any stored course; only the sent fields change, never the instructor; users and profiles never change |
| Views.DestroyCourseStep | courses/views.py:14-18 | any instructor deletes any stored course, with the cascade; 404 iff an instructor names an unknown course; refusals change nothing |
| Views.CourseEnrollments | courses/views.py:23-27 | for anyone, the course-with-enrollments representation without a viewer; nothing shows as enrolled |
| Views.EnrollResponse | courses/views.py:33-36 | a success status in either case, and 201 exactly when the enrollment was created |
| Views.EnrollStep | courses/views.py:29-36 | 401 for the anonymous user, 404 for an unknown course; 'already enrolled' with no change, or 'enrolled' with exactly one new row |
| Views.EnrollmentStatus | courses/views.py:38-59 | reports the course, the requester and whether their enrollment exists |
| Views.UnenrollResponse | courses/views.py:68-76 | 404 exactly when not enrolled, with its detail; 204 with an empty body otherwise |
| Views.UnenrollStep | courses/views.py:61-76 | deletes the requester's enrollment (with its grades) when there is one; otherwise not enrolled with no change |
| Views.CreateEnrollmentStep | courses/views.py:97-99 | succeeds iff the requester is authenticated, `student` names a stored user, the course exists and the requester is not yet enrolled in it; the saved enrollment is the requester's; a duplicate pair is a database error |
| Views.EnrollmentQueryset | courses/views.py:101-102 | exactly the stored enrollments whose student is the user |
| Views.ListEnrollments | courses/views.py:101-102 | exactly the requester's own enrollments, each in its full representation, showing its course as enrolled |
| Views.GradePermission | courses/views.py:107 | grants iff IsInstructor; 401 for the anonymous user, 403 with the IsInstructor message otherwise |
| Views.GradeErrors | courses/serializers.py:50-53 | refuses `enrollment` iff it names no row and `grade` iff absent |
| Views.CreateGradeStep | courses/views.py:109-114 | an instructor grades an enrollment iff it is in a course they own; never 404 |
| Views.GradeQueryset | courses/views.py:116-122 | an instructor's grades are those of their courses, anyone else's those on their own enrollments |
| Views.ListGrades | courses/views.py:104-122 | only instructors get the list, which is the grade queryset |
| Views.ListLessons | courses/views.py:130-131 | for anyone, exactly the course's lessons, each entry the lesson's full representation, ascending by order |
| Views.CreateLessonStep | courses/views.py:133-137 | succeeds iff the course exists, the requester owns it and its order is free; 404 for an unknown course, 500 without a profile, 403 outside one's own course, a database error for a taken order; otherwise exactly the new lesson |
| Views.UpdateLessonStep | courses/views.py:124-131 | for anyone, succeeds iff the lesson is in that course and no other lesson of it has the resulting order; a taken order is a database error; only the lessons table changes |
| Views.DestroyLessonStep | courses/views.py:124-131 | for anyone, deletes a lesson of that course; 404 otherwise |
| Views.CourseViewSet.Create | courses/views.py:20-21 | on the store, does exactly what CreateCourseStep says |
| Views.CourseViewSet.Update | courses/views.py:14-18 | on the store, does exactly what UpdateCourseStep says |
| Views.CourseViewSet.Destroy | courses/views.py:14-18 | on the store, does exactly what DestroyCourseStep says |
| Views.CourseViewSet.Enroll | courses/views.py:29-36 | on the store, does exactly what EnrollStep says |
| Views.CourseViewSet.Unenroll | courses/views.py:61-76 | on the store, does exactly what UnenrollStep says |
| Views.EnrollmentViewSet.Create | courses/views.py:97-99 | on the store, does exactly what CreateEnrollmentStep says |
| Views.GradeViewSet.Create | courses/views.py:109-114 | on the store, does exactly what CreateGradeStep says |
| Views.LessonViewSet.Create | courses/views.py:133-137 | on the store, does exactly what CreateLessonStep says |
| Views.LessonViewSet.Update | courses/views.py:124-131 | on the store, does exactly what UpdateLessonStep says |
| Views.LessonViewSet.Destroy | courses/views.py:124-131 | on the store, does exactly what DestroyLessonStep says |
| Properties.EnrollLeavesEnrolled | courses/views.py:32 | after a successful enroll the requester is enrolled |
| Properties.EnrollAddsExactlyOne | courses/views.py:32-34 | a first enroll adds exactly one row, the pair's enrollment, and answers 201 'enrolled' |
| Properties.EnrollIsIdempotent | courses/views.py:32-36 | a second enroll changes nothing and answers 'already enrolled' |
| Properties.UnenrollUndoesEnroll | courses/views.py:68-71 | unenrolling after a first enroll restores the database exactly |
| Properties.UnenrollLeavesNothing | courses/views.py:68-71 | after unenroll no enrollment and no grade of the pair is left |
| Properties.StatusFollowsEnrollment | courses/views.py:46-56 | the status is enrolled after enroll and not enrolled after unenroll |
| Properties.EnrollmentStudentIsRequester | courses/views.py:97-99 | whichever user the payload's `student` names, the enrollment is the requester's |
| Properties.CreatedEnrollmentIsListed | courses/views.py:97-102 | a new enrollment is in the requester's list, its course shown as enrolled |
| Properties.CourseReadsOpenToAll | courses/permissions.py:19-20 | course list, detail and enrollments are open to every requester |
| Properties.AnyInstructorWritesAnyCourse | courses/permissions.py:16-23 | any instructor updates and deletes any course, including others' |
| Properties.CourseWritesNeedProfile | courses/permissions.py:22-23 | without a profile no course is created, updated or deleted |
| Properties.CreatedCourseOwnedByCreator | courses/views.py:20-21 | a new course shows its creator's profile, no lessons, and no enrollment |
| Properties.DeletedCourseLeavesNothing | courses/models.py:24-59 | after deleting a course its lesson list is empty and nobody is enrolled in it |
| Properties.GivenGradeIsVisibleToGrader | courses/views.py:109-119 | a grade just given is in its grader's grade list |
| Properties.GradeListStaysInOwnCourses | courses/views.py:116-119 | an instructor's grade list holds only grades from courses they own |
| Properties.StudentsCannotListGrades | courses/views.py:107 | a student's grade list is refused with the IsInstructor message |
| Properties.NoGradingOutsideOwnCourses | courses/views.py:112-113 | grading in a course another instructor owns is refused, with no change |
| Properties.DuplicateLessonOrderRefused | courses/models.py:66 | a second lesson with the same order in the same course is refused |
| Properties.CreatedLessonIsListed | courses/views.py:130-137 | a new lesson is in its course's list with its order |
| Properties.LessonWritesIgnoreRequester | courses/views.py:127 | lesson updates and deletions do not depend on the requester |
| Properties.AliceIsStoredAsSent | courses/serializers.py:63-68 | a payload without surrounding whitespace is stored as sent |
| Properties.AliceRegistersAsInstructor | courses/serializers.py:63-74 | registering as instructor gives the user a profile |
| Properties.AliceCreatesIntro | courses/views.py:20-21 | the instructor's new course, with a non-blank description, is saved under key 2 and owned by their profile |
| Properties.RegisterStudentAddsUser | courses/serializers.py:63-74 | an accepted student registration only adds the user row |
| Properties.BobIsStoredAsSent | courses/serializers.py:63-68 | the second payload is stored as sent |
| Properties.BobIsNew | courses/serializers.py:59-61 | the second username is not taken yet |
| Properties.BobIsSaved | courses/serializers.py:66-68 | the scenario's database after the second registration is the user insert |
| Properties.BobRegistersAsStudent | courses/serializers.py:63-74 | registering as student gives no profile |
| Properties.BobEnrollsInIntro | courses/views.py:29-34 | the student's first enroll adds their enrollment under key 4 |
| Properties.BobSeesOneEnrollment | courses/views.py:101-102 | their enrollment list holds exactly that one entry, for "Intro" |
| Properties.BobCannotAddLesson | courses/views.py:133-135 | the student's creation of a lesson with non-blank content fails with a server error |
| Properties.AliceCannotRepeatLessonOrder | courses/models.py:66 | the instructor's first lesson with order 1 is saved; a second one with order 1 is refused |

## Left out

- The JWT login, refresh and logout views and the role label they return: these are calls into the token library. Authentication is the requester given to each endpoint.
- Routing tables, debug prints in `enrollment_status`, and the admin configuration.
- The dashboard and course-details reports: the routes name them, but they are not part of this model.
- Password hashing and storage: registration checks that a password was given, but `User` has no password field, so `set_password` is not modelled.
- Field-format validation (e-mail, dates, lengths) and the required fields of course and lesson payloads. `CourseData` and `LessonData` are taken as already complete and valid; in particular their `TextField`s `description` and `content`, which may not be blank, are taken as non-blank.
- Timestamps and dates come from the clock and are parameters (`today`, `now`).
- Grade values are floating point; they are stored as opaque `real` values, with no arithmetic.
- Concurrent `get_or_create` calls and transactions: requests are sequential.
- Primary keys: one counter hands out keys for all tables, where the database has one sequence per table; only freshness matters to the model.
- The order of list responses: the course, enrollment and grade lists are maps keyed by id. The querysets have no ordering.
- PUT and PATCH are one update whose payload leaves absent fields unchanged.
- The retrieve, update and destroy endpoints of enrollments and grades, beyond their querysets: they are the framework's defaults.
- `request.user` is never missing: the framework supplies the anonymous user when no token is sent.
- Serializers.RegisterStep: does not apply the Unicode NFKC normalization that `create_user` applies to the username, nor the lowercasing of the e-mail domain; Unicode normalization is not modelled. A username that collides with a stored one only after NFKC is therefore accepted here, where the database would refuse it.
- Serializers.RegistrationErrors: an absent field is the empty string, so "this field is required" and "may not be blank" are one refusal of that field; the error messages are not modelled.
- Serializers.RegisterStep: the format checks on the username (character set, length) and the e-mail are not modelled; only blankness and uniqueness are.
