/** `UserSession`: the application-wide slot holding the logged-in user.
    The static `instance` field becomes the one field of a `UserSession`
    object; the private per-instance `user` is the value in that slot, and
    it is never null because `setInstance` refuses null. */
module Session {
  import opened Common
  import opened Entities

  /** `hasRole` on a session whose user is `user` (`None` for a null user). */
  predicate HasRole(user: Option<User>, role: Role) {
    user.Some? && user.value.role == role
  }

  /** `hasAnyRole` on a session whose user is `user`: the loop returns true
      at the first listed role equal to the user's. */
  predicate HasAnyRole(user: Option<User>, roles: seq<Role>)
    decreases |roles|
  {
    user.Some? && |roles| > 0 && (user.value.role == roles[0] || HasAnyRole(user, roles[1..]))
  }

  /** `hasAnyRole(rs)` holds exactly when `hasRole(r)` holds for some listed
      `r`. */
  lemma {:induction false} HasAnyRoleIffSome(user: Option<User>, roles: seq<Role>)
    ensures HasAnyRole(user, roles) <==> exists i :: 0 <= i < |roles| && HasRole(user, roles[i])
    decreases |roles|
  {
    if |roles| > 0 {
      HasAnyRoleIffSome(user, roles[1..]);
      if HasAnyRole(user, roles[1..]) {
        var i :| 0 <= i < |roles[1..]| && HasRole(user, roles[1..][i]);
        assert HasRole(user, roles[i + 1]);
      }
      if exists i :: 0 <= i < |roles| && HasRole(user, roles[i]) {
        var i :| 0 <= i < |roles| && HasRole(user, roles[i]);
        if i > 0 {
          assert HasRole(user, roles[1..][i - 1]);
        }
      }
    }
  }

  class UserSession {
    /** The static `instance`: the current user, or none. */
    var instance: Option<User>

    /** No user is logged in when the application starts. */
    constructor ()
      ensures instance == None
    {
      instance := None;
    }

    /** `setInstance`: a null user throws `IllegalArgumentException` and the
        current session stays; otherwise the user becomes the current one. */
    method SetInstance(user: Option<User>) returns (r: Outcome)
      modifies this
      ensures user.None? ==> r == Thrown(IllegalArgument) && instance == old(instance)
      ensures user.Some? ==> r == Done && instance == user && IsAuthenticated()
    {
      if user.None? {
        return Thrown(IllegalArgument);
      }
      instance := user;
      return Done;
    }

    /** `getInstance().getUser()`: throws `IllegalStateException` exactly
        when no user is logged in. */
    function GetInstance(): (r: Result<User>)
      reads this
      ensures r.Fail? <==> !IsAuthenticated()
      ensures r.Fail? ==> r.exc == IllegalState
      ensures r.Ok? ==> Some(r.value) == instance
    {
      if instance.None? then Fail(IllegalState) else Ok(instance.value)
    }

    /** `isAuthenticated`: a session exists (its user is never null). */
    predicate IsAuthenticated()
      reads this
    {
      instance.Some?
    }

    /** `isLoggedIn`, an alias of `isAuthenticated`. */
    predicate IsLoggedIn()
      reads this
    {
      IsAuthenticated()
    }

    /** `getMedecinId`: none without a session or without a linked doctor,
        otherwise that doctor's id. */
    function GetMedecinId(): (r: Option<int>)
      reads this
      ensures r.None? <==> !IsAuthenticated() || instance.value.medecin.None?
      ensures r.Some? ==> r.value == instance.value.medecin.value.id
    {
      match instance
      case None => None
      case Some(u) => if u.medecin.None? then None else Some(u.medecin.value.id)
    }

    /** `clean`: the session is closed. */
    method Clean()
      modifies this
      ensures instance == None && !IsAuthenticated() && !IsLoggedIn()
    {
      instance := None;
    }
  }
}
