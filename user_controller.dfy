/**
 * The account handlers: registration, login, e-mail verification and
 * password-reset links, profile edits, the user listing, dashboard counts
 * and admin invitations. Users live in a `UserStore` whose table the
 * handlers replace. Password hashing and checking, e-mail format checks,
 * token verification, mail delivery, image upload and the clock come in as
 * parameters.
 */
module UserController {
  import opened Wrappers
  import opened Text
  import opened JsNumbers
  import opened Sorting
  import opened Pagination
  import opened Tables
  import opened PaginateAndSearch
  import opened UserModel
  import opened ProductModel
  import ProductController

  // ---------------------------------------------------------------- lookups

  predicate EmailTaken(t: Table<User>, email: string) {
    exists id :: id in t.rows && t.rows[id].email == email
  }

  /** No two stored users share an e-mail address. The schema does not enforce it; only lookups before inserts do. */
  predicate UniqueEmails(t: Table<User>) {
    forall a, b :: a in t.rows && b in t.rows && a != b ==> t.rows[a].email != t.rows[b].email
  }

  predicate AllConform(t: Table<User>) {
    forall id :: id in t.rows ==> UserModel.Conforms(t.rows[id])
  }

  /** `User.findOne({ email })`. */
  function FindByEmail(t: Table<User>, email: string): Option<Record<User>> {
    t.FirstWhere((u: User) => u.email == email)
  }

  /** `User.findOne({ slug })`. */
  function FindBySlug(t: Table<User>, slug: string): Option<Record<User>> {
    t.FirstWhere((u: User) => u.slug == Some(slug))
  }

  lemma FindByEmailFound(t: Table<User>, email: string)
    requires t.Valid()
    ensures FindByEmail(t, email).Some? <==> EmailTaken(t, email)
    ensures FindByEmail(t, email).Some? ==>
      var r := FindByEmail(t, email).value; r.id in t.rows && t.rows[r.id] == r.value && r.value.email == email
  {
    FirstWhereFound(t, (u: User) => u.email == email);
  }

  lemma FindBySlugFound(t: Table<User>, slug: string)
    requires t.Valid()
    ensures FindBySlug(t, slug).Some? ==>
      var r := FindBySlug(t, slug).value; r.id in t.rows && t.rows[r.id] == r.value && r.value.slug == Some(slug)
  {
    FirstWhereFound(t, (u: User) => u.slug == Some(slug));
  }

  /** With no earlier holder of the address, `findOne` finds the user just inserted. */
  lemma {:induction false} FindsNewlyInserted(t: Table<User>, u: User)
    requires t.Valid() && !EmailTaken(t, u.email)
    ensures FindByEmail(t.Insert(u), u.email) == Some(Record(t.nextId, u))
  {
    var p := (x: User) => x.email == u.email;
    var q := (r: Record<User>) => p(r.value);
    var e := t.Entries();
    InsertEntries(t, u);
    EntriesIndex(t);
    var e' := t.Insert(u).Entries();
    assert e' == e + [Record(t.nextId, u)];
    forall j | 0 <= j < |e| ensures !q(e'[j]) {
      assert e'[j] == e[j] == Record(t.order[j], t.rows[t.order[j]]);
      assert t.order[j] in t.rows;
    }
    assert q(e'[|e|]);
    var k := FirstIndexWhere(e', q);
    assert k.Some?;
    assert k.value == |e|;
  }

  // ---------------------------------------------------------------- registration and login

  datatype RegisterOutcome = RegisterMissingFields | AlreadyExists | InvalidEmail | Registered(id: Id, user: User) {
    function Code(): int {
      if this.Registered? then 201 else 400
    }
  }

  /** The user `registerUser` creates: defaults for everything but name, e-mail and the hash. */
  function RegisteredUser(name: string, email: string, hashed: string, now: int): User {
    NewUser(NewUserFields(name, email, Some(hashed), None, None, None), now)
  }

  datatype LoginOutcome =
    | LoginMissingFields | LoginInvalidEmail | NotRegistered | UseGoogle
    | NotVerified | VerificationMailFailed | WrongPassword
    | LoggedIn(id: Id, role: string)
  {
    function Code(): int {
      match this
      case LoginMissingFields => 400
      case LoginInvalidEmail => 400
      case NotRegistered => 400
      case UseGoogle => 403
      case NotVerified => 400
      case VerificationMailFailed => 500
      case WrongPassword => 403
      case LoggedIn(_, _) => 200
    }
  }

  /**
   * `loginUser`. `matches(plain, hashed)` is the password check, `mailSent`
   * whether the re-sent verification mail went out.
   */
  function Login(t: Table<User>, email: Option<string>, password: Option<string>,
                 validEmail: string -> bool, matches: (string, string) -> bool, mailSent: bool): (r: LoginOutcome)
    ensures r == LoginMissingFields <==> !Truthy(email) || !Truthy(password)
    ensures r == LoginInvalidEmail <==> Truthy(email) && Truthy(password) && !validEmail(email.value)
    ensures r == NotRegistered <==>
      Truthy(email) && Truthy(password) && validEmail(email.value) && FindByEmail(t, email.value).None?
    ensures r == UseGoogle ==> !Truthy(FindByEmail(t, email.value).value.value.password)
    ensures r == NotVerified || r == VerificationMailFailed ==>
      Truthy(FindByEmail(t, email.value).value.value.password) && !FindByEmail(t, email.value).value.value.verified &&
      (r == NotVerified <==> mailSent)
    ensures r == WrongPassword ==>
      var u := FindByEmail(t, email.value).value.value;
      Truthy(u.password) && u.verified && !matches(password.value, u.password.value)
    ensures r.LoggedIn? <==>
      Truthy(email) && Truthy(password) && validEmail(email.value) && FindByEmail(t, email.value).Some? &&
      var u := FindByEmail(t, email.value).value.value;
      Truthy(u.password) && u.verified && matches(password.value, u.password.value)
    ensures r.LoggedIn? ==>
      r.id == FindByEmail(t, email.value).value.id && r.role == RoleName(FindByEmail(t, email.value).value.value.role)
  {
    if !Truthy(email) || !Truthy(password) then LoginMissingFields
    else if !validEmail(email.value) then LoginInvalidEmail
    else
      match FindByEmail(t, email.value)
      case None => NotRegistered
      case Some(found) =>
        var u := found.value;
        if !Truthy(u.password) then UseGoogle
        else if !u.verified then (if mailSent then NotVerified else VerificationMailFailed)
        else if !matches(password.value, u.password.value) then WrongPassword
        else LoggedIn(found.id, RoleName(u.role))
  }

  /** An unverified account gets the verification answer whether or not the password is right. */
  lemma UnverifiedIgnoresPassword(t: Table<User>, email: Option<string>, password: Option<string>,
                                  validEmail: string -> bool, m1: (string, string) -> bool,
                                  m2: (string, string) -> bool, mailSent: bool)
    requires Truthy(email) && FindByEmail(t, email.value).Some?
    requires !FindByEmail(t, email.value).value.value.verified
    ensures Login(t, email, password, validEmail, m1, mailSent) == Login(t, email, password, validEmail, m2, mailSent)
  {
  }

  /** An account without a password (a Google account) can never log in with one. */
  lemma GoogleAccountsCannotUsePassword(t: Table<User>, email: string, password: Option<string>,
                                        validEmail: string -> bool, matches: (string, string) -> bool, mailSent: bool)
    requires FindByEmail(t, email).Some? && !Truthy(FindByEmail(t, email).value.value.password)
    ensures !Login(t, Some(email), password, validEmail, matches, mailSent).LoggedIn?
  {
  }

  // ---------------------------------------------------------------- verification and reset links

  /** The claims of a verified token. */
  datatype Claims = Claims(id: Id, purpose: Option<string>)

  /** `ResetRedirect` redirects to the reset page for `slug`; `VerifiedNoReply` sends nothing. */
  datatype VerifyOutcome =
    | TokenMissing | TokenRejected | VerifyUserNotFound | ResetRedirect(slug: string)
    | AlreadyVerified | EmailVerified | VerifiedNoReply
  {
    function Code(): Option<int> {
      match this
      case TokenMissing => Some(400)
      case TokenRejected => Some(400)
      case VerifyUserNotFound => Some(404)
      case ResetRedirect(_) => Some(302)
      case AlreadyVerified => Some(400)
      case EmailVerified => Some(200)
      case VerifiedNoReply => None
    }
  }

  /** A reset token stamps the user with the current time as the reset slug. */
  function IssueResetSlug(u: User, now: nat): (v: User)
    ensures v.slug == Some(DecimalString(now)) && v.updatedAt == now
    ensures v.(slug := u.slug, updatedAt := u.updatedAt) == u
  {
    u.(slug := Some(DecimalString(now)), updatedAt := now)
  }

  function MarkVerified(u: User, now: int): (v: User)
    ensures v.verified && v.updatedAt == now
    ensures v.(verified := u.verified, updatedAt := u.updatedAt) == u
  {
    u.(verified := true, updatedAt := now)
  }

  /** `6 * 60 * 1000` milliseconds. */
  const ResetWindow: int := 6 * 60 * 1000

  /** `Date.now() - Number(slug) > expiryLimit`; a comparison with NaN is false. */
  predicate Expired(slug: string, now: int): (r: bool)
    ensures r ==> JsNumber(slug).Finite? && JsNumber(slug).value < now
  {
    match JsNumber(slug)
    case Finite(t) => now - t > ResetWindow
    case NaN => false
  }

  /** A slug issued at `t` stays usable for six minutes and no longer. */
  lemma IssuedSlugExpiry(u: User, t: nat, now: int)
    ensures Expired(IssueResetSlug(u, t).slug.value, now) <==> now - t > 360000
  {
    NumberOfDecimalString(t);
  }

  /** A slug that is not a number never expires. */
  lemma NonNumericSlugNeverExpires(slug: string, now: int)
    requires JsNumber(slug) == NaN
    ensures !Expired(slug, now)
  {
  }

  datatype ResetOutcome = ResetMissingFields | ResetLinkUnknown | ResetLinkExpired | PasswordReset {
    function Code(): int {
      match this
      case ResetMissingFields => 400
      case ResetLinkUnknown => 404
      case ResetLinkExpired => 410
      case PasswordReset => 200
    }
  }

  /** The new password replaces the old one as a hash, and the slug is removed. */
  function WithNewPassword(u: User, hashed: string, now: int): (v: User)
    ensures v.password == Some(hashed) && v.slug.None? && v.updatedAt == now
    ensures v.(password := u.password, slug := u.slug, updatedAt := u.updatedAt) == u
  {
    u.(password := Some(hashed), slug := None, updatedAt := now)
  }

  // ---------------------------------------------------------------- profile edits

  datatype ProfileOutcome = ProfileUserNotFound | ProfileNoReply | ProfileUpdated(user: User) {
    function Code(): Option<int> {
      match this
      case ProfileUserNotFound => Some(400)
      case ProfileNoReply => None
      case ProfileUpdated(_) => Some(200)
    }
  }

  /** `updateUser`'s edits: each of picture, name and e-mail is overwritten only by a non-empty value. */
  function ApplyProfileEdit(u: User, name: Option<string>, email: Option<string>, picture: string, now: int): (v: User)
    ensures v.name == if Truthy(name) then name.value else u.name
    ensures v.email == if Truthy(email) then email.value else u.email
    ensures v.picture == if picture != "" then Some(picture) else u.picture
    ensures v.(name := u.name, email := u.email, picture := u.picture, updatedAt := u.updatedAt) == u
    ensures UserModel.Conforms(u) ==> UserModel.Conforms(v)
  {
    u.(picture := if picture != "" then Some(picture) else u.picture,
       name := if Truthy(name) then name.value else u.name,
       email := if Truthy(email) then email.value else u.email,
       updatedAt := now)
  }

  // ---------------------------------------------------------------- invitations

  datatype InviteOutcome = InviteMissingFields | InviteExists | InviteMailFailed(id: Id) | Invited(id: Id) {
    function Code(): int {
      match this
      case InviteMissingFields => 400
      case InviteExists => 400
      case InviteMailFailed(_) => 500
      case Invited(_) => 201
    }
  }

  /** The account `userInvitation` creates: an unverified admin with the hash of the temporary password. */
  function InvitedUser(name: string, email: string, hashed: string, now: int): (u: User)
    ensures u.role == Admin && !u.verified && !u.isSuperAdmin
    ensures u.name == name && u.email == email && u.password == Some(hashed)
  {
    NewUser(NewUserFields(name, email, Some(hashed), Some(false), Some(Admin), None), now)
  }

  /** An invited admin must verify the address before logging in, whatever the password. */
  lemma InvitedUserMustVerifyFirst(t: Table<User>, name: string, email: string, hashed: string, now: int,
                                   password: Option<string>, validEmail: string -> bool,
                                   matches: (string, string) -> bool, mailSent: bool)
    requires t.Valid() && !EmailTaken(t, email)
    requires hashed != "" && Truthy(password) && validEmail(email) && email != ""
    ensures var r := Login(t.Insert(InvitedUser(name, email, hashed, now)), Some(email), password, validEmail, matches, mailSent);
      r == NotVerified || r == VerificationMailFailed
  {
    FindsNewlyInserted(t, InvitedUser(name, email, hashed, now));
  }

  // ---------------------------------------------------------------- the store

  class UserStore {
    var table: Table<User>

    /** The table is well formed and every stored user meets the schema. */
    ghost predicate Valid()
      reads this
    {
      table.Valid() && AllConform(table)
    }

    constructor ()
      ensures Valid() && table.Entries() == []
    {
      table := EmptyTable();
    }

    /** `registerUser`: guard, duplicate check, then format check, then one insert. */
    method Register(name: Option<string>, email: Option<string>, password: Option<string>,
                    validEmail: string -> bool, hash: string -> string, now: int) returns (res: RegisterOutcome)
      requires Valid()
      modifies this
      ensures Valid()
      ensures res == RegisterMissingFields <==> !(Truthy(name) && Truthy(email) && Truthy(password))
      ensures res == AlreadyExists <==>
        Truthy(name) && Truthy(email) && Truthy(password) && EmailTaken(old(table), email.value)
      ensures res == InvalidEmail <==>
        Truthy(name) && Truthy(email) && Truthy(password) && !EmailTaken(old(table), email.value) && !validEmail(email.value)
      ensures res.Registered? ==>
        res.id == old(table).nextId &&
        res.user == RegisteredUser(name.value, email.value, hash(password.value), now) &&
        table == old(table).Insert(res.user) &&
        table.Entries() == old(table).Entries() + [Record(res.id, res.user)]
      ensures !res.Registered? ==> table == old(table)
      ensures UniqueEmails(old(table)) ==> UniqueEmails(table)
    {
      if !(Truthy(name) && Truthy(email) && Truthy(password)) {
        return RegisterMissingFields;
      }
      FindByEmailFound(table, email.value);
      if FindByEmail(table, email.value).Some? {
        return AlreadyExists;
      }
      if !validEmail(email.value) {
        return InvalidEmail;
      }
      var user := RegisteredUser(name.value, email.value, hash(password.value), now);
      var id := table.nextId;
      InsertEntries(table, user);
      table := table.Insert(user);
      res := Registered(id, user);
    }

    /** `verifyEmail`: token check, lookup, then either a reset slug or the verified flag. */
    method VerifyEmail(token: Option<string>, verify: string -> Option<Claims>, now: nat) returns (res: VerifyOutcome)
      requires Valid()
      modifies this
      ensures Valid()
      ensures res == TokenMissing <==> !Truthy(token)
      ensures res == TokenRejected <==> Truthy(token) && verify(token.value).None?
      ensures Truthy(token) && verify(token.value).Some? ==>
        var c := verify(token.value).value;
        && (res == VerifyUserNotFound <==> c.id !in old(table).rows)
        && (res.ResetRedirect? <==> c.id in old(table).rows && c.purpose == Some("reset-password"))
        && (res.ResetRedirect? ==>
              res.slug == DecimalString(now) &&
              table == old(table).Put(c.id, IssueResetSlug(old(table).rows[c.id], now)))
        && (res == AlreadyVerified <==>
              c.id in old(table).rows && c.purpose != Some("reset-password") && old(table).rows[c.id].verified)
        && (res == EmailVerified || res == VerifiedNoReply ==>
              table == old(table).Put(c.id, MarkVerified(old(table).rows[c.id], now)) &&
              (res == EmailVerified <==> c.purpose == Some("email-verification")))
      ensures res in {TokenMissing, TokenRejected, VerifyUserNotFound, AlreadyVerified} ==> table == old(table)
    {
      if !Truthy(token) {
        return TokenMissing;
      }
      var claims := verify(token.value);
      if claims.None? {
        return TokenRejected;
      }
      var c := claims.value;
      var found := table.Find(c.id);
      if found.None? {
        return VerifyUserNotFound;
      }
      if c.purpose == Some("reset-password") {
        PutEntries(table, c.id, IssueResetSlug(found.value, now));
        table := table.Put(c.id, IssueResetSlug(found.value, now));
        return ResetRedirect(DecimalString(now));
      }
      if found.value.verified {
        return AlreadyVerified;
      }
      PutEntries(table, c.id, MarkVerified(found.value, now));
      table := table.Put(c.id, MarkVerified(found.value, now));
      if c.purpose == Some("email-verification") {
        res := EmailVerified;
      } else {
        res := VerifiedNoReply;
      }
    }

    /** `resetPassword`: guard, lookup by slug, six-minute expiry, new hash, slug removed. */
    method ResetPassword(slug: Option<string>, newPassword: Option<string>, hash: string -> string, now: int)
      returns (res: ResetOutcome)
      requires Valid()
      modifies this
      ensures Valid()
      ensures res == ResetMissingFields <==> !(Truthy(slug) && Truthy(newPassword))
      ensures res == ResetLinkUnknown <==>
        Truthy(slug) && Truthy(newPassword) && FindBySlug(old(table), slug.value).None?
      ensures res == ResetLinkExpired <==>
        Truthy(slug) && Truthy(newPassword) && FindBySlug(old(table), slug.value).Some? && Expired(slug.value, now)
      ensures res == PasswordReset ==>
        var r := FindBySlug(old(table), slug.value).value;
        r.id in old(table).rows &&
        table == old(table).Put(r.id, WithNewPassword(r.value, hash(newPassword.value), now))
      ensures res != PasswordReset ==> table == old(table)
    {
      if !(Truthy(slug) && Truthy(newPassword)) {
        return ResetMissingFields;
      }
      var found := FindBySlug(table, slug.value);
      FindBySlugFound(table, slug.value);
      if found.None? {
        return ResetLinkUnknown;
      }
      if Expired(slug.value, now) {
        return ResetLinkExpired;
      }
      var r := found.value;
      PutEntries(table, r.id, WithNewPassword(r.value, hash(newPassword.value), now));
      table := table.Put(r.id, WithNewPassword(r.value, hash(newPassword.value), now));
      res := PasswordReset;
    }

    /** `updateUser` for the authenticated user `id`. */
    method UpdateUser(id: Id, name: Option<string>, email: Option<string>,
                      image: ProductController.ImageUpload, now: int) returns (res: ProfileOutcome)
      requires Valid()
      modifies this
      ensures Valid()
      ensures res == ProfileUserNotFound <==> id !in old(table).rows
      ensures res == ProfileNoReply <==> id in old(table).rows && image.UploadFailed?
      ensures res.ProfileUpdated? ==>
        var v := ApplyProfileEdit(old(table).rows[id], name, email, ProductController.ImageUrlOf(image), now);
        table == old(table).Put(id, v) && res.user == Hidden(v)
      ensures !res.ProfileUpdated? ==> table == old(table)
    {
      var found := table.Find(id);
      if found.None? {
        return ProfileUserNotFound;
      }
      if image.UploadFailed? {
        return ProfileNoReply;
      }
      var v := ApplyProfileEdit(found.value, name, email, ProductController.ImageUrlOf(image), now);
      PutEntries(table, id, v);
      table := table.Put(id, v);
      res := ProfileUpdated(Hidden(v));
    }

    /** `userInvitation`: guard, duplicate check, insert an unverified admin, then send the mail. */
    method Invite(email: Option<string>, name: Option<string>, tempPassword: string,
                  hash: string -> string, mailSent: bool, now: int) returns (res: InviteOutcome)
      requires Valid()
      modifies this
      ensures Valid()
      ensures res == InviteMissingFields <==> !(Truthy(email) && Truthy(name))
      ensures res == InviteExists <==> Truthy(email) && Truthy(name) && EmailTaken(old(table), email.value)
      ensures res.Invited? || res.InviteMailFailed? ==>
        res.id == old(table).nextId &&
        table == old(table).Insert(InvitedUser(name.value, email.value, hash(tempPassword), now)) &&
        (res.Invited? <==> mailSent)
      ensures res == InviteMissingFields || res == InviteExists ==> table == old(table)
      ensures UniqueEmails(old(table)) ==> UniqueEmails(table)
    {
      if !(Truthy(email) && Truthy(name)) {
        return InviteMissingFields;
      }
      FindByEmailFound(table, email.value);
      if FindByEmail(table, email.value).Some? {
        return InviteExists;
      }
      var user := InvitedUser(name.value, email.value, hash(tempPassword), now);
      var id := table.nextId;
      InsertEntries(table, user);
      table := table.Insert(user);
      if mailSent {
        res := Invited(id);
      } else {
        res := InviteMailFailed(id);
      }
    }
  }

  // ---------------------------------------------------------------- user listing

  /** The query string of `getUsers`. */
  datatype UserQuery = UserQuery(
    page: Option<string>,
    limit: Option<string>,
    search: Option<string>,
    sortField: Option<string>,
    sortOrder: Option<string>,
    role: Option<string>)

  /** A user document's fields as the database compares and sorts them. */
  function UserField(r: Record<User>, field: string): Key {
    var u := r.value;
    if field == "_id" then Num(r.id)
    else if field == "name" then Text(u.name)
    else if field == "email" then Text(u.email)
    else if field == "password" then (if u.password.Some? then Text(u.password.value) else Missing)
    else if field == "slug" then (if u.slug.Some? then Text(u.slug.value) else Missing)
    else if field == "picture" then (if u.picture.Some? then Text(u.picture.value) else Missing)
    else if field == "role" then Text(RoleName(u.role))
    else if field == "verified" then Flag(u.verified)
    else if field == "isSuperAdmin" then Flag(u.isSuperAdmin)
    else if field == "createdAt" then Num(u.createdAt)
    else if field == "updatedAt" then Num(u.updatedAt)
    else Missing
  }

  const UserSearchFields: seq<string> := ["name", "email"]

  /** The options `getUsers` hands to the paginated search. */
  function UserOptions(q: UserQuery): (o: Options)
    ensures PageOf(o) == ParseIntOr(q.page, 1) && LimitOf(o) == ParseIntOr(q.limit, 10)
    ensures SearchOf(o) == (if Truthy(q.search) then q.search.value else "")
    ensures FieldsOf(o) == UserSearchFields
    ensures SortOf(o).field == (if Truthy(q.sortField) then q.sortField.value else "createdAt")
    ensures SortOf(o).ascending <==> q.sortOrder == Some("asc")
    ensures FilterOf(o).anyOf.None?
    ensures FilterOf(o).equal == if Truthy(q.role) then map["role" := Text(q.role.value)] else map[]
  {
    Options(
      Some(ParseIntOr(q.page, 1)),
      Some(ParseIntOr(q.limit, 10)),
      Some(if Truthy(q.search) then q.search.value else ""),
      Some(UserSearchFields),
      Some(Query(if Truthy(q.role) then map["role" := Text(q.role.value)] else map[], None)),
      Some(SortSpec(if Truthy(q.sortField) then q.sortField.value else "createdAt", q.sortOrder == Some("asc"))))
  }

  predicate PositiveUserPaging(q: UserQuery) {
    ParseIntOr(q.page, 1) >= 1 && ParseIntOr(q.limit, 10) >= 1
  }

  function HideAll(rs: seq<Record<User>>): (hs: seq<Record<User>>)
    ensures |hs| == |rs|
    ensures forall i :: 0 <= i < |rs| ==> hs[i] == Record(rs[i].id, Hidden(rs[i].value))
  {
    seq(|rs|, i requires 0 <= i < |rs| => Record(rs[i].id, Hidden(rs[i].value)))
  }

  /** `h` is a stored user `d` matching `query`, shown with its password left out. */
  ghost predicate ShownFrom(h: Record<User>, e: seq<Record<User>>, query: Query) {
    exists d :: d in e && Satisfies(d, query, UserField) && h == Record(d.id, Hidden(d.value))
  }

  /** `getUsers`: the paginated search over the users, with passwords left out of the page. */
  function ListUsers(t: Table<User>, q: UserQuery): (r: Paged<Record<User>>)
    requires PositiveUserPaging(q)
    ensures r.total == CountWhere(t.Entries(), Matcher(EffectiveQuery(UserOptions(q)), UserField))
    ensures r.pages == CeilDiv(r.total, ParseIntOr(q.limit, 10)) && r.page == ParseIntOr(q.page, 1)
    ensures |r.data| <= ParseIntOr(q.limit, 10)
    ensures forall i :: 0 <= i < |r.data| ==> r.data[i].value.password.None?
    ensures forall i :: 0 <= i < |r.data| ==> ShownFrom(r.data[i], t.Entries(), EffectiveQuery(UserOptions(q)))
    ensures var p := Paginate(t.Entries(), UserOptions(q), UserField);
      |r.data| == |p.data| && forall i :: 0 <= i < |r.data| ==> r.data[i] == Record(p.data[i].id, Hidden(p.data[i].value))
    ensures SortOf(UserOptions(q)).field != "password" ==>
      Sorted(r.data, SortKey(SortOf(UserOptions(q)), UserField), SortOf(UserOptions(q)).ascending)
  {
    var o := UserOptions(q);
    var p := Paginate(t.Entries(), o, UserField);
    HiddenListing(t.Entries(), o, p);
    p.(data := HideAll(p.data))
  }

  /** What the paginated search promises carries over to its page with the passwords left out. */
  lemma HiddenListing(e: seq<Record<User>>, o: Options, p: Paged<Record<User>>)
    requires PageOf(o) >= 1 && LimitOf(o) >= 1
    requires p == Paginate(e, o, UserField)
    ensures var hs := HideAll(p.data);
      && (forall i :: 0 <= i < |hs| ==> ShownFrom(hs[i], e, EffectiveQuery(o)))
      && (SortOf(o).field != "password" ==> Sorted(hs, SortKey(SortOf(o), UserField), SortOf(o).ascending))
  {
    var hs := HideAll(p.data);
    HiddenPage(p.data, hs, e, EffectiveQuery(o));
    if SortOf(o).field != "password" {
      HiddenKeepsOrder(p.data, hs, SortOf(o));
    }
  }

  /** Leaving out the password changes no other field of a user. */
  lemma HiddenKeepsFields(r: Record<User>, field: string)
    requires field != "password"
    ensures UserField(Record(r.id, Hidden(r.value)), field) == UserField(r, field)
  {
  }

  /** The database sorts before the password is dropped; the order survives on every other field. */
  lemma HiddenKeepsOrder(page: seq<Record<User>>, hs: seq<Record<User>>, spec: SortSpec)
    requires spec.field != "password"
    requires Sorted(page, SortKey(spec, UserField), spec.ascending)
    requires |hs| == |page|
    requires forall i :: 0 <= i < |page| ==> hs[i] == Record(page[i].id, Hidden(page[i].value))
    ensures Sorted(hs, SortKey(spec, UserField), spec.ascending)
  {
    forall i, j | 0 <= i < j < |hs| ensures InOrder(hs[i], hs[j], SortKey(spec, UserField), spec.ascending) {
      assert InOrder(page[i], page[j], SortKey(spec, UserField), spec.ascending);
      HiddenKeepsFields(page[i], spec.field);
      HiddenKeepsFields(page[j], spec.field);
    }
  }

  /** Hiding the passwords of a page of matches keeps each entry traceable to a matching stored user. */
  lemma HiddenPage(page: seq<Record<User>>, hs: seq<Record<User>>, e: seq<Record<User>>, query: Query)
    requires |hs| == |page|
    requires forall i :: 0 <= i < |page| ==> hs[i] == Record(page[i].id, Hidden(page[i].value))
    requires forall i :: 0 <= i < |page| ==> page[i] in e && Satisfies(page[i], query, UserField)
    ensures forall i :: 0 <= i < |hs| ==> ShownFrom(hs[i], e, query)
  {
    forall i | 0 <= i < |hs| ensures ShownFrom(hs[i], e, query) {
      var d := page[i];
      assert d in e && Satisfies(d, query, UserField) && hs[i] == Record(d.id, Hidden(d.value));
    }
  }

  /** Without a role in the query nothing is filtered by role; with one, only that role is listed. */
  lemma RoleFilterOnlyWhenGiven(q: UserQuery, d: Record<User>)
    requires !Truthy(q.search)
    ensures !Truthy(q.role) ==> Satisfies(d, EffectiveQuery(UserOptions(q)), UserField)
    ensures Truthy(q.role) ==>
      (Satisfies(d, EffectiveQuery(UserOptions(q)), UserField) <==> RoleName(d.value.role) == q.role.value)
  {
    var o := UserOptions(q);
    NoSearchKeepsFilter(o);
    var f := FilterOf(o);
    assert f == Query(f.equal, None);
    if Truthy(q.role) {
      SatisfiesOneField(d, "role", Text(q.role.value), UserField);
      RoleField(d);
    } else {
      SatisfiesNoField(d, UserField);
    }
  }

  /** The `role` field of a user document is its role name. */
  lemma RoleField(d: Record<User>)
    ensures UserField(d, "role") == Text(RoleName(d.value.role))
  {
  }

  /** The search text selects users whose name or e-mail contains it, ignoring case. */
  lemma UserSearchCoversNameAndEmail(q: UserQuery, d: Record<User>)
    requires Truthy(q.search) && !Truthy(q.role)
    ensures Satisfies(d, EffectiveQuery(UserOptions(q)), UserField) <==>
      ContainsIgnoringCase(d.value.name, q.search.value) || ContainsIgnoringCase(d.value.email, q.search.value)
  {
    var o := UserOptions(q);
    SearchIsAnyField(d, o, UserField);
    assert FieldsOf(o)[0] == "name" && FieldsOf(o)[1] == "email";
    if ContainsIgnoringCase(d.value.name, q.search.value) {
      assert ClauseHolds(d, Clause(FieldsOf(o)[0], SearchOf(o)), UserField);
    }
    if ContainsIgnoringCase(d.value.email, q.search.value) {
      assert ClauseHolds(d, Clause(FieldsOf(o)[1], SearchOf(o)), UserField);
    }
  }

  /** An empty query: first page of ten, newest first, no filter. */
  lemma UserListingDefaults()
    ensures var o := UserOptions(UserQuery(None, None, None, None, None, None));
      PageOf(o) == 1 && LimitOf(o) == 10 && SortOf(o) == SortSpec("createdAt", false) &&
      EffectiveQuery(o) == Query(map[], None)
  {
  }

  // ---------------------------------------------------------------- dashboard counts

  datatype Stats = Stats(products: nat, categories: nat, users: nat,
                         outOfStock: nat, activeProducts: nat, inactiveProducts: nat)

  function OutOfStock(r: Record<Product>): bool { r.value.stock <= 0 }
  function IsActive(r: Record<Product>): bool { r.value.status == Active }
  function IsInactive(r: Record<Product>): bool { r.value.status == Inactive }

  /** Active and inactive products partition the collection. */
  lemma {:induction false} StatusPartition(s: seq<Record<Product>>)
    ensures CountWhere(s, IsActive) + CountWhere(s, IsInactive) == |s|
  {
    if s != [] {
      StatusPartition(s[1..]);
      assert s == [s[0]] + s[1..];
      CountWhereSplit([s[0]], s[1..], IsActive);
      CountWhereSplit([s[0]], s[1..], IsInactive);
    }
  }

  /** `getStats`: the product facets (an empty facet counts 0) and the number of users. */
  function GetStats(products: Table<Product>, users: Table<User>): (s: Stats)
    ensures s.products == |products.Entries()| && s.users == users.Size()
    ensures s.activeProducts + s.inactiveProducts == s.products
    ensures s.outOfStock <= s.products
    ensures s.outOfStock == CountWhere(products.Entries(), OutOfStock)
    ensures s.activeProducts == CountWhere(products.Entries(), IsActive)
    ensures s.categories == |ProductController.Categories(products)|
  {
    var e := products.Entries();
    StatusPartition(e);
    Stats(|e|, |ProductController.Categories(products)|, users.Size(),
          CountWhere(e, OutOfStock), CountWhere(e, IsActive), CountWhere(e, IsInactive))
  }

  /** There are never more categories than products, and none exactly when there are no products. */
  lemma {:induction false} CategoryCountBound(products: Table<Product>, users: Table<User>)
    requires products.Valid()
    ensures GetStats(products, users).categories <= GetStats(products, users).products
    ensures GetStats(products, users).categories == 0 <==> GetStats(products, users).products == 0
  {
    EntriesIndex(products);
    ProductController.CategoryCount(products.rows);
    if |products.order| > 0 {
      var id := products.order[0];
      assert products.rows[id].category in ProductController.Categories(products);
    }
  }
}
