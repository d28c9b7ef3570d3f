/**
 * The permission classes: the two custom ones, `IsInstructor` and
 * `IsInstructorOrReadOnly`, the framework's `IsAuthenticated` and `AllowAny`
 * that the views also use, and the framework rule that turns a refusal into
 * NotAuthenticated or PermissionDenied.
 */
module Permissions {
  import opened Wrappers
  import opened Models
  import opened Responses

  /** `request.user`: the anonymous user, or the user the credentials identify. */
  datatype Requester = Anonymous | Authenticated(id: UserId)

  datatype HttpMethod = GET | HEAD | OPTIONS | POST | PUT | PATCH | DELETE

  /** The credentials of an authenticated request name a stored user. */
  ghost predicate WellFormed(db: Db, req: Requester)
  {
    req.Authenticated? ==> req.id in db.users
  }

  /** `permissions.SAFE_METHODS`. */
  predicate IsSafe(m: HttpMethod)
  {
    m == GET || m == HEAD || m == OPTIONS
  }

  /** The requester's Instructor profile; the anonymous user never has one. */
  function RoleOf(db: Db, req: Requester): (r: Option<InstructorId>)
    requires OneProfilePerUser(db.instructors)
    ensures r.Some? ==> req.Authenticated? && r.value in db.instructors && db.instructors[r.value].user == req.id
  {
    match req
    case Anonymous => None
    case Authenticated(u) => ProfileOf(db.instructors, u)
  }

  /** `permissions.IsAuthenticated`. */
  predicate IsAuthenticated(req: Requester)
  {
    req.Authenticated?
  }

  /**
   * `IsInstructor.has_permission`: granted exactly to an authenticated user
   * that has an Instructor profile (`hasattr(request.user, 'instructor')`).
   */
  predicate IsInstructor(db: Db, req: Requester): (r: bool)
    requires OneProfilePerUser(db.instructors)
    ensures r <==> req.Authenticated? && exists i :: i in db.instructors && db.instructors[i].user == req.id
  {
    req.Authenticated? && RoleOf(db, req).Some?
  }

  /**
   * `IsInstructorOrReadOnly.has_permission`: a safe method is granted to
   * every requester, any other method to a user with an Instructor profile.
   */
  predicate IsInstructorOrReadOnly(db: Db, m: HttpMethod, req: Requester): (r: bool)
    requires OneProfilePerUser(db.instructors)
    ensures r <==> IsSafe(m) || (req.Authenticated? && exists i :: i in db.instructors && db.instructors[i].user == req.id)
  {
    IsSafe(m) || RoleOf(db, req).Some?
  }

  /** `IsInstructor.message`. */
  const InstructorsOnly := "Only instructors can access this view."

  /** The framework's default PermissionDenied detail. */
  const NoPermission := "You do not have permission to perform this action."

  /**
   * `permission_denied`: a refused anonymous request is answered as not
   * authenticated, a refused authenticated one as forbidden with `message`.
   */
  function Deny(req: Requester, message: string): (e: Error)
    ensures e.NotAuthenticated? <==> req.Anonymous?
    ensures e.PermissionDenied? <==> req.Authenticated?
    ensures e.PermissionDenied? ==> e.detail == message
  {
    if req.Anonymous? then NotAuthenticated else PermissionDenied(message)
  }

  /** Every safe method is granted to every requester, the anonymous one included. */
  lemma SafeMethodsGranted(db: Db, m: HttpMethod, req: Requester)
    requires OneProfilePerUser(db.instructors) && IsSafe(m)
    ensures IsInstructorOrReadOnly(db, m, req)
  {
  }

  /** A write is granted exactly to a user with an Instructor profile; never to the anonymous user. */
  lemma WritesNeedProfile(db: Db, m: HttpMethod, req: Requester)
    requires OneProfilePerUser(db.instructors) && !IsSafe(m)
    ensures IsInstructorOrReadOnly(db, m, req) <==>
      req.Authenticated? && exists i :: i in db.instructors && db.instructors[i].user == req.id
    ensures req.Anonymous? ==> !IsInstructorOrReadOnly(db, m, req)
  {
  }

  /** Whatever `IsInstructor` grants, `IsInstructorOrReadOnly` grants for every method. */
  lemma IsInstructorImpliesOrReadOnly(db: Db, m: HttpMethod, req: Requester)
    requires OneProfilePerUser(db.instructors) && IsInstructor(db, req)
    ensures IsInstructorOrReadOnly(db, m, req)
  {
  }
}
