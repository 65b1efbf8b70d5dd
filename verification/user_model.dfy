/**
 * The User document (backend/src/models/User.ts): a staff account with a
 * unique trimmed username, a password of at least six characters, one of
 * five roles, and an active flag. Password hashing is not part of this
 * model: the stored password is the one given.
 */
module UserModel {
  import opened Common

  /** The `role` enum 'admin' | 'waiter' | 'kitchen' | 'cashier' | 'bar'. */
  datatype UserRole = AdminRole | WaiterRole | KitchenRole | CashierRole | BarRole

  datatype User = User(username: string, password: string, role: UserRole, isActive: bool)

  const MinPasswordLength: nat := 6

  /** The user validators: a trimmed non-empty username and a password of
      at least six characters. */
  predicate ValidUser(u: User)
  {
    u.username != "" && Trimmed(u.username) && |u.password| >= MinPasswordLength
  }

  /** The unique index on usernames. */
  predicate UniqueUsernames(users: map<UserId, User>)
  {
    forall a, b :: a in users && b in users && a != b ==> users[a].username != users[b].username
  }

  /** A new user: the username is trimmed and the account is active. */
  function NewUser(username: string, password: string, role: UserRole): (u: User)
    ensures u.username == Trim(username) && u.password == password && u.role == role
    ensures u.isActive
  {
    User(Trim(username), password, role, true)
  }

  /** The accounts with the admin role, active or not. */
  function Admins(users: map<UserId, User>): (ids: set<UserId>)
    ensures forall id :: id in ids <==> id in users && users[id].role == AdminRole
  {
    set id | id in users && users[id].role == AdminRole
  }

  /** The number of admin accounts: `countDocuments({ role: 'admin' })`. */
  function AdminCount(users: map<UserId, User>): nat
  {
    |Admins(users)|
  }

  /** A new user passes the validators exactly when its trimmed username is
      non-empty and its password has at least six characters. */
  lemma NewUserValid(username: string, password: string, role: UserRole)
    ensures ValidUser(NewUser(username, password, role))
        <==> !IsBlank(username) && |password| >= MinPasswordLength
  {
    TrimIdempotent(username);
  }
}
