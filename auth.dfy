/** The signed-in identity, as the authentication context hands it to a page. */
module Auth {
  import opened Wrappers

  /** `role` is absent for ordinary users; its provenance is outside the system. */
  datatype User = User(uid: string, displayName: string, role: Option<string>)

  const AdminRole := "admin"

  /** `user && user.role === "admin"`: a signed-in user whose role is exactly "admin". */
  function IsAdmin(user: Option<User>): (r: bool)
    ensures user.None? ==> !r
    ensures user.Some? && user.value.role.None? ==> !r
    ensures r ==> user.value.role.value == "admin"
    ensures user.Some? && user.value.role == Some("admin") ==> r
  {
    user.Some? && user.value.role == Some(AdminRole)
  }
}
