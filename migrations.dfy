/**
 * Migration 001: make sure the admin account named by the environment exists and
 * accepts the configured password.
 *
 * Password hashing is abstracted: a hash records the salt it was made with and
 * what it was made from, and checking a password against a hash compares the two.
 * The salt, which the hashing library draws at random, is an input.
 */
module Migrations {

  /** A salted password hash as stored in `admin_users.password_hash`. */
  datatype PasswordHash = PasswordHash(salt: nat, secret: string)

  /**
   * `generate_password_hash(password)` for a given random salt: the hash keeps the
   * salt it was drawn with, and hashes drawn with the same salt differ for
   * different passwords.
   */
  function GeneratePasswordHash(password: string, salt: nat): (h: PasswordHash)
    ensures h.salt == salt
    ensures forall other :: other != password ==> h != PasswordHash(salt, other)
  {
    PasswordHash(salt, password)
  }

  /** `check_password_hash(hash, password)`: the hash is the one the password gives under its salt. */
  predicate CheckPasswordHash(hash: PasswordHash, password: string): (ok: bool)
    ensures ok <==> hash == GeneratePasswordHash(password, hash.salt)
  {
    hash.secret == password
  }

  /** A hash accepts exactly the password it was generated from, whatever the salt. */
  lemma HashChecksItsPassword(password: string, candidate: string, salt: nat)
    ensures CheckPasswordHash(GeneratePasswordHash(password, salt), candidate) <==> candidate == password
  {
  }

  /** A row of `admin_users`; the table is keyed by the unique username. */
  datatype AdminUser = AdminUser(username: string, passwordHash: PasswordHash)

  /** The credentials the migration installs. */
  datatype Credentials = Credentials(username: string, password: string)

  /** `os.environ.get(key, default)` */
  function EnvGet(env: map<string, string>, key: string, default: string): string
  {
    if key in env then env[key] else default
  }

  /** ADMIN_USERNAME and ADMIN_PASSWORD, defaulting to "admin" and "admin123" when unset. */
  function ConfiguredCredentials(env: map<string, string>): (c: Credentials)
    ensures "ADMIN_USERNAME" !in env ==> c.username == "admin"
    ensures "ADMIN_PASSWORD" !in env ==> c.password == "admin123"
    ensures "ADMIN_USERNAME" in env ==> c.username == env["ADMIN_USERNAME"]
    ensures "ADMIN_PASSWORD" in env ==> c.password == env["ADMIN_PASSWORD"]
  {
    Credentials(EnvGet(env, "ADMIN_USERNAME", "admin"), EnvGet(env, "ADMIN_PASSWORD", "admin123"))
  }

  /** What the migration did, as it reports it. */
  datatype MigrationAction = Created | PasswordUpdated | AlreadyCurrent

  /**
   * The table after the upsert of `c`, with `salt` used if a hash is generated.
   * Afterwards the configured user exists and its password checks; the other
   * users are untouched; and exactly the configured username is added when it was absent.
   */
  function UpsertAdmin(users: map<string, AdminUser>, c: Credentials, salt: nat): (after: map<string, AdminUser>)
    ensures c.username in after
    ensures after[c.username].username == (if c.username in users then users[c.username].username else c.username)
    ensures CheckPasswordHash(after[c.username].passwordHash, c.password)
    ensures after.Keys == users.Keys + {c.username}
    ensures forall u :: u in users && u != c.username ==> after[u] == users[u]
  {
    if c.username !in users then
      users[c.username := AdminUser(c.username, GeneratePasswordHash(c.password, salt))]
    else if !CheckPasswordHash(users[c.username].passwordHash, c.password) then
      users[c.username := users[c.username].(passwordHash := GeneratePasswordHash(c.password, salt))]
    else users
  }

  /** Running the upsert a second time, with any salt, changes nothing. */
  lemma UpsertIdempotent(users: map<string, AdminUser>, c: Credentials, salt1: nat, salt2: nat)
    ensures UpsertAdmin(UpsertAdmin(users, c, salt1), c, salt2) == UpsertAdmin(users, c, salt1)
  {
  }

  /** The `admin_users` table. */
  class AdminUserTable {
    var users: map<string, AdminUser>

    ghost predicate Valid()
      reads this
    {
      forall u :: u in users ==> users[u].username == u
    }

    constructor ()
      ensures Valid() && users == map[]
    {
      users := map[];
    }

    /**
     * `migration_001_create_admin_user`: creates the configured user when absent,
     * replaces its password hash when the configured password does not check, and
     * otherwise leaves the table alone.
     */
    method CreateAdminUser(env: map<string, string>, salt: nat) returns (action: MigrationAction)
      requires Valid()
      modifies this
      ensures Valid()
      ensures var c := ConfiguredCredentials(env);
              && (c.username !in old(users) ==>
                    action == Created
                    && users == old(users)[c.username := AdminUser(c.username, GeneratePasswordHash(c.password, salt))])
              && (c.username in old(users) && !CheckPasswordHash(old(users)[c.username].passwordHash, c.password) ==>
                    action == PasswordUpdated
                    && users == old(users)[c.username := old(users)[c.username].(passwordHash := GeneratePasswordHash(c.password, salt))])
              && (c.username in old(users) && CheckPasswordHash(old(users)[c.username].passwordHash, c.password) ==>
                    action == AlreadyCurrent && users == old(users))
      ensures users == UpsertAdmin(old(users), ConfiguredCredentials(env), salt)
    {
      var c := ConfiguredCredentials(env);
      if c.username !in users {
        var admin := AdminUser(c.username, GeneratePasswordHash(c.password, salt));
        users := users[c.username := admin];
        action := Created;
      } else if !CheckPasswordHash(users[c.username].passwordHash, c.password) {
        users := users[c.username := users[c.username].(passwordHash := GeneratePasswordHash(c.password, salt))];
        action := PasswordUpdated;
      } else {
        action := AlreadyCurrent;
      }
    }
  }

  /** Two runs of the migration in a row: the second one finds nothing to do. */
  method RunTwice(table: AdminUserTable, env: map<string, string>, salt1: nat, salt2: nat)
    returns (second: MigrationAction)
    requires table.Valid()
    modifies table
    ensures table.Valid()
    ensures table.users == UpsertAdmin(old(table.users), ConfiguredCredentials(env), salt1)
    ensures second == AlreadyCurrent
  {
    var first := table.CreateAdminUser(env, salt1);
    second := table.CreateAdminUser(env, salt2);
  }
}
