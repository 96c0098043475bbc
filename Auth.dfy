/**
 * The admin gate: the `requireAuth` middleware, the middleware chain of the
 * multipart admin routes (authentication first, then the upload check), and
 * the login handler that marks a session as authenticated.
 */
module Auth {
  import opened Wrappers
  import opened Strings
  import opened Sequences
  import opened Http
  import opened Upload

  /** The fields of the server-held session that the admin routes read and write. */
  datatype Session = Session(authenticated: bool, username: Option<string>)

  /**
   * `requireAuth`: a request passes when it carries a session marked
   * authenticated; otherwise it is answered 401 and goes no further.
   */
  function RequireAuth(session: Option<Session>): (denied: Option<Status>)
    ensures denied.None? <==> session.Some? && session.value.authenticated
    ensures denied.Some? ==> denied.value == Unauthorized
  {
    if session.Some? && session.value.authenticated then None else Some(Unauthorized)
  }

  /**
   * The middleware chain `requireAuth, upload.…` of a multipart admin route.
   * Authentication is checked before any file is looked at; a refused file
   * is passed to the server's generic error handler, which answers 500.
   */
  function Admit(session: Option<Session>, files: seq<IncomingFile>): (denied: Option<Status>)
    ensures denied.None? <==>
      RequireAuth(session).None? && forall k :: 0 <= k < |files| ==> Check(files[k]) == Accepted
    ensures RequireAuth(session).Some? ==> denied == Some(Unauthorized)
    ensures RequireAuth(session).None? && denied.Some? ==> denied == Some(ServerError)
  {
    if RequireAuth(session).Some? then RequireAuth(session)
    else if CheckAll(files) != Accepted then Some(ServerError)
    else None
  }

  /** An entry of the users file: a name and a one-way password hash. */
  datatype User = User(username: string, passwordHash: string)

  /** `users.find(u => u.username === name)`: the first user with exactly that name, no case folding. */
  function FindUser(users: seq<User>, name: string): (user: Option<User>)
    ensures user.Some? ==> user.value.username == name && user.value in users
    ensures user.None? <==> forall j :: 0 <= j < |users| ==> users[j].username != name
    ensures user.Some? ==>
      exists i :: 0 <= i < |users| && users[i] == user.value && forall j :: 0 <= j < i ==> users[j].username != name
  {
    Find(users, (u: User) => u.username == name)
  }

  /**
   * `POST /admin/login`. `users` is the parsed users file (`None` when it
   * exists but cannot be read or parsed, which the handler answers with
   * 500) and
   * `verify(password, hash)` is the one-way hash comparison. On success the
   * session is marked authenticated and remembers the user name.
   */
  function Login(username: Option<string>, password: Option<string>, users: Option<seq<User>>,
                 verify: (string, string) -> bool, session: Session): (r: Reply<Session>)
    ensures !Truthy(username) || !Truthy(password) ==> r == Error(BadRequest)
    ensures Truthy(username) && Truthy(password) && users.None? ==> r == Error(ServerError)
    ensures r.Ok? <==>
      Truthy(username) && Truthy(password) && users.Some?
      && var user := FindUser(users.value, username.value);
         user.Some? && verify(password.value, user.value.passwordHash)
    ensures r.Ok? ==> r.value.authenticated && r.value.username == username
    ensures r.Error? && Truthy(username) && Truthy(password) && users.Some? ==> r.status == Unauthorized
  {
    if !Truthy(username) || !Truthy(password) then Error(BadRequest)
    else if users.None? then Error(ServerError)
    else
      var user := FindUser(users.value, username.value);
      if user.None? then Error(Unauthorized)
      else if !verify(password.value, user.value.passwordHash) then Error(Unauthorized)
      else Ok(session.(authenticated := true, username := username))
  }

  /** After a successful login the gate lets the same session through. */
  lemma LoginOpensGate(username: Option<string>, password: Option<string>, users: Option<seq<User>>,
                       verify: (string, string) -> bool, session: Session)
    requires Login(username, password, users, verify, session).Ok?
    ensures RequireAuth(Some(Login(username, password, users, verify, session).value)).None?
  {
  }

  /** An unknown user name and a wrong password get the very same answer. */
  lemma UnknownUserLooksLikeWrongPassword(name: string, password: string, users: seq<User>,
                                          verify: (string, string) -> bool, session: Session)
    requires name != "" && password != ""
    requires FindUser(users, name).None? || !verify(password, FindUser(users, name).value.passwordHash)
    ensures Login(Some(name), Some(password), Some(users), verify, session) == Error(Unauthorized)
  {
  }
}
