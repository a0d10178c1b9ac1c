/**
 * Seeding the super-admin account at start-up from three configuration
 * settings: nothing happens when a super-admin with that address exists,
 * otherwise one verified admin flagged as super-admin is inserted.
 */
module Initiate {
  import opened Wrappers
  import opened Text
  import opened Tables
  import opened UserModel
  import opened UserController

  /** The three environment settings; each may be unset. */
  datatype SuperAdminConfig = SuperAdminConfig(name: Option<string>, email: Option<string>, password: Option<string>)

  datatype SeedOutcome = MissingCredentials | AlreadyPresent | Created(id: Id)

  predicate HasCredentials(c: SuperAdminConfig) {
    Truthy(c.name) && Truthy(c.email) && Truthy(c.password)
  }

  /** The ids of the super-admins registered under `email`. */
  function SuperAdminIds(t: Table<User>, email: string): set<Id> {
    set id | id in t.rows && t.rows[id].email == email && t.rows[id].isSuperAdmin
  }

  /** `User.findOne({ email, isSuperAdmin: true })`. */
  function FindSuperAdmin(t: Table<User>, email: string): Option<Record<User>> {
    t.FirstWhere((u: User) => u.email == email && u.isSuperAdmin)
  }

  lemma FindSuperAdminFound(t: Table<User>, email: string)
    requires t.Valid()
    ensures FindSuperAdmin(t, email).Some? <==> SuperAdminIds(t, email) != {}
  {
    FirstWhereFound(t, (u: User) => u.email == email && u.isSuperAdmin);
    if FindSuperAdmin(t, email).Some? {
      assert FindSuperAdmin(t, email).value.id in SuperAdminIds(t, email);
    }
  }

  function SuperAdmin(name: string, email: string, hashed: string, now: int): (u: User)
    ensures u.role == Admin && u.isSuperAdmin && u.verified
    ensures u.name == name && u.email == email && u.password == Some(hashed)
  {
    NewUser(NewUserFields(name, email, Some(hashed), Some(true), Some(Admin), Some(true)), now)
  }

  /** The user table after seeding. */
  function Seed(t: Table<User>, c: SuperAdminConfig, hash: string -> string, now: int): (r: Table<User>)
    ensures !HasCredentials(c) ==> r == t
    ensures r.Size() <= t.Size() + 1
    ensures forall id :: id in t.rows && id != t.nextId ==> id in r.rows && r.rows[id] == t.rows[id]
  {
    if !HasCredentials(c) || FindSuperAdmin(t, c.email.value).Some? then t
    else t.Insert(SuperAdmin(c.name.value, c.email.value, hash(c.password.value), now))
  }

  /** `initiateSuperAdmin` against the user store. */
  method InitiateSuperAdmin(store: UserStore, c: SuperAdminConfig, hash: string -> string, now: int)
    returns (r: SeedOutcome)
    requires store.Valid()
    modifies store
    ensures store.Valid()
    ensures r == MissingCredentials <==> !HasCredentials(c)
    ensures HasCredentials(c) ==> (r == AlreadyPresent <==> SuperAdminIds(old(store.table), c.email.value) != {})
    ensures r.Created? ==> r.id == old(store.table).nextId
    ensures store.table == Seed(old(store.table), c, hash, now)
  {
    if !HasCredentials(c) {
      return MissingCredentials;
    }
    FindSuperAdminFound(store.table, c.email.value);
    if FindSuperAdmin(store.table, c.email.value).Some? {
      return AlreadyPresent;
    }
    var admin := SuperAdmin(c.name.value, c.email.value, hash(c.password.value), now);
    var id := store.table.nextId;
    InsertEntries(store.table, admin);
    store.table := store.table.Insert(admin);
    r := Created(id);
  }

  /** Seeding adds the new account's id to the super-admins of its address and leaves the others. */
  lemma SeedInsertsOne(t: Table<User>, c: SuperAdminConfig, hash: string -> string, now: int)
    requires t.Valid() && HasCredentials(c) && SuperAdminIds(t, c.email.value) == {}
    ensures SuperAdminIds(Seed(t, c, hash, now), c.email.value) == {t.nextId}
    ensures Seed(t, c, hash, now).Size() == t.Size() + 1
  {
    FindSuperAdminFound(t, c.email.value);
    var u := SuperAdmin(c.name.value, c.email.value, hash(c.password.value), now);
    InsertEntries(t, u);
    assert t.nextId in SuperAdminIds(t.Insert(u), c.email.value);
  }

  /** Running the seeding twice leaves exactly one super-admin for the address when there was none. */
  lemma SeedTwiceLeavesOne(t: Table<User>, c: SuperAdminConfig, hash: string -> string, n1: int, n2: int)
    requires t.Valid() && HasCredentials(c) && SuperAdminIds(t, c.email.value) == {}
    ensures Seed(Seed(t, c, hash, n1), c, hash, n2) == Seed(t, c, hash, n1)
    ensures |SuperAdminIds(Seed(Seed(t, c, hash, n1), c, hash, n2), c.email.value)| == 1
  {
    SeedInsertsOne(t, c, hash, n1);
    var t' := Seed(t, c, hash, n1);
    InsertEntries(t, SuperAdmin(c.name.value, c.email.value, hash(c.password.value), n1));
    FindSuperAdminFound(t', c.email.value);
  }

  /** Seeding is idempotent: a second run changes nothing. */
  lemma SeedIdempotent(t: Table<User>, c: SuperAdminConfig, hash: string -> string, n1: int, n2: int)
    requires t.Valid()
    ensures Seed(Seed(t, c, hash, n1), c, hash, n2) == Seed(t, c, hash, n1)
  {
    if HasCredentials(c) {
      FindSuperAdminFound(t, c.email.value);
      if SuperAdminIds(t, c.email.value) == {} {
        SeedTwiceLeavesOne(t, c, hash, n1, n2);
      }
    }
  }

  /**
   * An ordinary account with the configured address does not stop the
   * seeding, so the address is then held by two users.
   */
  lemma OrdinaryUserDoesNotBlock(t: Table<User>, c: SuperAdminConfig, hash: string -> string, now: int, other: Id)
    requires t.Valid() && HasCredentials(c) && SuperAdminIds(t, c.email.value) == {}
    requires other in t.rows && t.rows[other].email == c.email.value
    ensures Seed(t, c, hash, now).Size() == t.Size() + 1
    ensures !UniqueEmails(Seed(t, c, hash, now))
  {
    SeedInsertsOne(t, c, hash, now);
    var t' := Seed(t, c, hash, now);
    assert other != t.nextId && t'.rows[other] == t.rows[other];
    assert t.nextId in t'.rows && t'.rows[t.nextId].email == c.email.value;
  }
}
