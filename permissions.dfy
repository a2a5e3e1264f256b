/** `PermissionChecker`: which pages each role may open and which actions
    the logged-in user may perform.  The checks that consult `UserSession`
    take the user it holds (`None` when nobody is logged in). */
module Permissions {
  import opened Common
  import opened Entities
  import Session

  /** `getAllowedPages`: the pages of each role, in lower case. */
  function AllowedPages(role: Role): (pages: set<string>)
    ensures "dashboard" in pages && "patients" in pages && "agenda" in pages
    ensures role != ADMIN ==> "users" !in pages && "doctors" !in pages
  {
    match role
    case ADMIN => {"dashboard", "patients", "agenda", "doctors", "billing", "users"}
    case MEDECIN => {"dashboard", "agenda", "patients"}
    case SEC => {"dashboard", "patients", "agenda", "billing"}
  }

  /** `canAccessPage`: false for a null role or page; otherwise the page,
      lower-cased, must be one of the role's pages. */
  predicate CanAccessPage(role: Option<Role>, page: Option<string>)
  {
    role.Some? && page.Some? && ToLower(page.value) in AllowedPages(role.value)
  }

  lemma LowerOfUpper(s: string)
    ensures ToLower(ToUpper(s)) == ToLower(s)
  {
    forall i | 0 <= i < |s|
      ensures ToLower(ToUpper(s))[i] == ToLower(s)[i]
    {
      assert ToUpper(s)[i] == UpperChar(s[i]);
    }
  }

  lemma LowerOfLower(s: string)
    ensures ToLower(ToLower(s)) == ToLower(s)
  {
    forall i | 0 <= i < |s|
      ensures ToLower(ToLower(s))[i] == ToLower(s)[i]
    {
      assert ToLower(s)[i] == LowerChar(s[i]);
    }
  }

  /** Page names are matched without regard to case: the page written in
      capitals, or in lower case, is allowed exactly when it is. */
  lemma PageCaseInsensitive(role: Option<Role>, page: string)
    ensures CanAccessPage(role, Some(ToUpper(page))) == CanAccessPage(role, Some(page))
    ensures CanAccessPage(role, Some(ToLower(page))) == CanAccessPage(role, Some(page))
  {
    LowerOfUpper(page);
    LowerOfLower(page);
  }

  /** A null role or page opens nothing. */
  lemma NullDenied(role: Option<Role>, page: Option<string>)
    requires role.None? || page.None?
    ensures !CanAccessPage(role, page)
  {
  }

  /** Whatever page a doctor or a secretary may open, an administrator may
      open too; the user and doctor pages are for administrators only. */
  lemma AdminSeesAll(role: Role, page: string)
    ensures CanAccessPage(Some(role), Some(page)) ==> CanAccessPage(Some(ADMIN), Some(page))
    ensures CanAccessPage(Some(role), Some(page)) && ToLower(page) in {"users", "doctors"} ==> role == ADMIN
  {
  }

  /** The early-return loop over `roles` in `requireRole` and `hasAnyRole`:
      it finds the user's role exactly when it is listed. */
  predicate RoleListed(role: Role, roles: seq<Role>): (r: bool)
    ensures r <==> role in roles
    decreases |roles|
  {
    |roles| > 0 && (role == roles[0] || RoleListed(role, roles[1..]))
  }

  /** `requireRole`: normal return exactly when a user is logged in and has
      a listed role; `IllegalStateException` otherwise. */
  function RequireRole(session: Option<User>, roles: seq<Role>): (r: Outcome)
    ensures r == Done <==> session.Some? && session.value.role in roles
    ensures r.Thrown? ==> r.exc == IllegalState
  {
    if session.None? then Thrown(IllegalState)
    else if RoleListed(session.value.role, roles) then Done
    else Thrown(IllegalState)
  }

  /** `PermissionChecker.hasAnyRole`: false when nobody is logged in,
      otherwise whether the user's role is listed. */
  predicate HasAnyRole(session: Option<User>, roles: seq<Role>): (r: bool)
    ensures r <==> session.Some? && session.value.role in roles
  {
    session.Some? && RoleListed(session.value.role, roles)
  }

  /** `requireRole` passes exactly when `hasAnyRole` holds. */
  lemma RequireRoleIffHasAnyRole(session: Option<User>, roles: seq<Role>)
    ensures RequireRole(session, roles) == Done <==> HasAnyRole(session, roles)
  {
  }

  /** The checker's `hasAnyRole` and the session's `hasAnyRole` agree. */
  lemma {:induction false} HasAnyRoleAgrees(session: Option<User>, roles: seq<Role>)
    ensures HasAnyRole(session, roles) == Session.HasAnyRole(session, roles)
    decreases |roles|
  {
    if |roles| > 0 {
      HasAnyRoleAgrees(session, roles[1..]);
    }
  }

  /** `canPerformAction`: nothing without a session; an administrator may
      do anything; a doctor may only read or view; a secretary may create,
      edit or read patients, appointments and invoices. */
  predicate CanPerformAction(session: Option<User>, action: string, resource: string)
  {
    if session.None? then false
    else match session.value.role
      case ADMIN => true
      case MEDECIN => action == "read" || action == "view"
      case SEC =>
        (resource == "patient" || resource == "appointment" || resource == "invoice") &&
        (action == "create" || action == "edit" || action == "read")
  }

  /** Without a session no action is allowed, and any action other than
      reading, viewing, creating or editing (a deletion, say) is for
      administrators only. */
  lemma ActionsByRole(session: Option<User>, action: string, resource: string)
    ensures session.None? ==> !CanPerformAction(session, action, resource)
    ensures CanPerformAction(session, action, resource) && action !in {"read", "view", "create", "edit"} ==>
      session.value.role == ADMIN
    ensures session.Some? && session.value.role == ADMIN ==> CanPerformAction(session, action, resource)
  {
  }

  /** A doctor's permission depends on the action alone; a secretary's
      needs one of the three resources. */
  lemma DoctorAndSecretary(session: Option<User>, action: string, resource: string)
    requires session.Some?
    ensures session.value.role == MEDECIN ==>
      (CanPerformAction(session, action, resource) <==> action in {"read", "view"})
    ensures session.value.role == SEC && CanPerformAction(session, action, resource) ==>
      resource in {"patient", "appointment", "invoice"} && action in {"create", "edit", "read"}
  {
  }
}
