/** The user registry of `users.json` and the in-memory login sessions
    (meal_bot.py:29, 38-45, 191-202). */
module Registry {
  import opened Wrappers

  /** One entry of `users.json`. `password` is the SHA-256 hex digest. */
  datatype UserRecord = UserRecord(password: string, isAdmin: bool, fullName: string, telegramId: Option<int>)

  /** One entry of `user_sessions`, created at login. */
  datatype Session = Session(username: string, isAdmin: bool, fullName: string)

  type Users = map<string, UserRecord>
  type Sessions = map<int, Session>

  const AdminName: string := "admin"
  const AdminPassword: string := "admin123"
  const AdminFullName: string := "مدیر سیستم"

  /** The registry `initialize_files` writes: one administrator, not yet
      bound to a chat account. */
  function InitialUsers(hash: string -> string): (u: Users)
    ensures u.Keys == {AdminName}
    ensures u[AdminName] == UserRecord(hash(AdminPassword), true, AdminFullName, None)
  {
    map[AdminName := UserRecord(hash(AdminPassword), true, AdminFullName, None)]
  }

  /** The record `add_user_password` stores: never an administrator, not yet
      bound to a chat account. */
  function NewUser(hash: string -> string, password: string, fullName: string): (r: UserRecord)
    ensures !r.isAdmin && r.telegramId.None?
    ensures r.password == hash(password) && r.fullName == fullName
  {
    UserRecord(hash(password), false, fullName, None)
  }

  /** `username in users and users[username]['password'] == hash_password(password)`. */
  predicate Authenticates(users: Users, hash: string -> string, username: string, password: string) {
    username in users && users[username].password == hash(password)
  }

  /** The session `login_password` creates for a user. */
  function SessionFor(username: string, r: UserRecord): (s: Session)
    ensures s.username == username && s.isAdmin == r.isAdmin && s.fullName == r.fullName
  {
    Session(username, r.isAdmin, r.fullName)
  }

  /** `telegram_id in user_sessions and user_sessions[telegram_id]['is_admin']`:
      the guard of every administrator entry point. */
  predicate IsAdminSession(sessions: Sessions, tid: int) {
    tid in sessions && sessions[tid].isAdmin
  }

  /** Only the seeded administrator is an administrator, and it is present. */
  ghost predicate AdminOnlyTheSeed(users: Users) {
    && AdminName in users && users[AdminName].isAdmin
    && forall u :: u in users && users[u].isAdmin ==> u == AdminName
  }

  /** The seeded registry has only the seeded administrator. */
  lemma InitialAdminOnlyTheSeed(hash: string -> string)
    ensures AdminOnlyTheSeed(InitialUsers(hash))
  {
  }

  /** Storing a new user under any name but the administrator's keeps the
      administrator the only one. */
  lemma AddNonAdminKeepsSeed(users: Users, name: string, r: UserRecord)
    requires AdminOnlyTheSeed(users) && name != AdminName && !r.isAdmin
    ensures AdminOnlyTheSeed(users[name := r])
  {
  }
}
