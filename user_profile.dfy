/**
 * The profile badge in the header: the signed-out view, the role badge
 * (its colour class and label), the avatar initial, and the logout button.
 */
module UserProfile {
  import opened Wrappers
  import opened Text
  import opened AuthContext
  import opened ProtectedAction

  /** The "Not logged in" view is shown. */
  predicate ShowsNotLoggedIn(isAuthenticated: bool, user: Option<User>) {
    !isAuthenticated || user.None?
  }

  /**
   * The signed-out view is shown exactly when the gate refuses every
   * requirement; for a paired provider state, exactly when it is not
   * authenticated.
   */
  lemma NotLoggedInIffNoPermission(s: AuthState)
    ensures ShowsNotLoggedIn(s.isAuthenticated, s.user)
      <==> forall r :: !HasPermission(s.isAuthenticated, s.user, r)
    ensures Paired(s) ==> (ShowsNotLoggedIn(s.isAuthenticated, s.user) <==> !s.isAuthenticated)
  {
    if !ShowsNotLoggedIn(s.isAuthenticated, s.user) {
      assert HasPermission(s.isAuthenticated, s.user, ViewerRole);
    }
  }

  const AdminBadge: string := "bg-red-100 text-red-800"
  const UserBadge: string := "bg-blue-100 text-blue-800"
  const ViewerBadge: string := "bg-green-100 text-green-800"
  const DefaultBadge: string := "bg-gray-100 text-gray-800"

  /** `getRoleColor(role)`: the badge classes for a role string. */
  function RoleColor(role: string): (cls: string)
    ensures cls == DefaultBadge <==> role != "admin" && role != "user" && role != "viewer"
  {
    if role == "admin" then AdminBadge
    else if role == "user" then UserBadge
    else if role == "viewer" then ViewerBadge
    else DefaultBadge
  }

  /** The three roles get three different badges, none of them the default one. */
  lemma RoleColorsDistinct(a: Role, b: Role)
    ensures RoleColor(RoleName(a)) == RoleColor(RoleName(b)) <==> a == b
    ensures RoleColor(RoleName(a)) != DefaultBadge
  {
  }

  /** `getRoleDisplay(role)`: the role with its first character upper-cased. */
  function RoleDisplay(role: string): (shown: string)
    ensures |shown| == |role|
    ensures role != [] ==> shown[0] == UpperChar(role[0]) && shown[1..] == role[1..]
  {
    if role == [] then [] else [UpperChar(role[0])] + role[1..]
  }

  /** The labels of the three roles. */
  lemma RoleLabels()
    ensures RoleDisplay(RoleName(AdminRole)) == "Admin"
    ensures RoleDisplay(RoleName(UserRole)) == "User"
    ensures RoleDisplay(RoleName(ViewerRole)) == "Viewer"
  {
  }

  /**
   * The avatar text: one character for a non-empty username, the username's
   * first letter up to case and never a lower-case letter.
   */
  function AvatarInitial(username: string): (initial: string)
    ensures |initial| == if username == [] then 0 else 1
    ensures initial != [] ==>
      && !('a' <= initial[0] <= 'z')
      && LowerChar(initial[0]) == LowerChar(username[0])
  {
    if username == [] then [] else [UpperChar(username[0])]
  }

  /** The logout button: delegates to the provider, after which the signed-out view shows. */
  method LogoutClicked(auth: AuthProvider)
    modifies auth
    ensures auth.State() == LogoutStep(old(auth.State()))
    ensures ShowsNotLoggedIn(auth.isAuthenticated, auth.user)
  {
    auth.Logout();
  }
}
