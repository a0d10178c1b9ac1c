/**
 * The user schema: required name and email (no uniqueness constraint), an
 * optional password that default reads leave out, an optional reset slug
 * and picture, `verified` defaulting to true, a two-valued role defaulting
 * to "user", `isSuperAdmin` defaulting to false, and timestamps.
 */
module UserModel {
  import opened Wrappers

  datatype Role = RegularUser | Admin

  function RoleName(r: Role): string {
    match r
    case RegularUser => "user"
    case Admin => "admin"
  }

  /** The role enum: only "user" and "admin" are roles. */
  function ParseRole(s: string): (r: Option<Role>)
    ensures r.Some? <==> s == "user" || s == "admin"
    ensures r.Some? ==> RoleName(r.value) == s
  {
    if s == "user" then Some(RegularUser) else if s == "admin" then Some(Admin) else None
  }

  datatype User = User(
    name: string,
    email: string,
    password: Option<string>,
    slug: Option<string>,
    verified: bool,
    picture: Option<string>,
    role: Role,
    isSuperAdmin: bool,
    createdAt: int,
    updatedAt: int)

  /** A stored user satisfies the schema's `required` rules. */
  predicate Conforms(u: User) {
    u.name != "" && u.email != ""
  }

  /** The fields a caller may give when creating a user; absent ones take the schema default. */
  datatype NewUserFields = NewUserFields(
    name: string,
    email: string,
    password: Option<string>,
    verified: Option<bool>,
    role: Option<Role>,
    isSuperAdmin: Option<bool>)

  /** `new User({...})` at time `now`. */
  function NewUser(f: NewUserFields, now: int): (u: User)
    ensures u.name == f.name && u.email == f.email && u.password == f.password
    ensures u.slug.None? && u.picture.None?
    ensures u.createdAt == now && u.updatedAt == now
  {
    User(f.name, f.email, f.password, None, f.verified.GetOr(true), None,
         f.role.GetOr(RegularUser), f.isSuperAdmin.GetOr(false), now, now)
  }

  /** Without explicit values a new user is verified, an ordinary user, and not a super-admin. */
  lemma NewUserDefaults(name: string, email: string, password: Option<string>, now: int)
    ensures var u := NewUser(NewUserFields(name, email, password, None, None, None), now);
      u.verified && u.role == RegularUser && RoleName(u.role) == "user" && !u.isSuperAdmin
  {
  }

  /** A user as default reads return it: the password is not selected. */
  function Hidden(u: User): (v: User)
    ensures v.password.None?
    ensures v.(password := u.password) == u
  {
    u.(password := None)
  }
}
