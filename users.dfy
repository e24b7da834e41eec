/** The account handlers: register, log in, show and update the profile,
    change the password. Password hashing and checking are the parameters
    `hash` and `matches` (bcrypt's `hash` and `compare`); the token is the
    payload `jwt.sign` is given. */
module Users {
  import opened JsValues
  import opened Enums
  import opened Schema
  import opened Store
  import opened Messages
  import opened Text

  /** What the handlers show of a user: never the password hash. */
  datatype PublicUser = PublicUser(id: Id, name: string, email: string, role: Role)

  function PublicView(id: Id, u: User): (p: PublicUser)
    ensures p.id == id && p.name == u.name && p.email == u.email && p.role == u.role
  {
    PublicUser(id, u.name, u.email, u.role)
  }

  /** Some user other than `caller` has the email. */
  predicate EmailOfOther(users: map<Id, User>, caller: Id, email: string) {
    exists k :: k in users && k != caller && users[k].email == email
  }

  // =====================================================================
  // register

  function AddUser(s: State, u: User): State {
    s.(users := s.users[s.nextId := u], nextId := s.nextId + 1)
  }

  /** The fields have passed the registration validator. A new user has
      the role `user` and stores the hash of the password. */
  function RegisterStep(s: State, name: string, email: string, password: string,
                        hash: string -> string, now: int): Reply {
    if EmailUsed(s.users, email) then Reply(400, EmailInUse, s)
    else Reply(201, UserRegistered, AddUser(s, User(name, email, hash(password), UserRole, now)))
  }

  method Register(db: Db, name: string, email: string, password: string, hash: string -> string, now: int)
    returns (code: nat, message: Msg, user: Option<PublicUser>)
    modifies db
    ensures Reply(code, message, db.Snapshot()) == RegisterStep(old(db.Snapshot()), name, email, password, hash, now)
    ensures user == if code == 201 then Some(PublicUser(old(db.nextId), name, email, UserRole)) else None
  {
    if exists k :: k in db.users && db.users[k].email == email {
      return 400, EmailInUse, None;
    }
    var id := db.NewId();
    var u := User(name, email, hash(password), UserRole, now);
    db.users := db.users[id := u];
    return 201, UserRegistered, Some(PublicView(id, u));
  }

  /** 400 exactly when the email is taken, and then nothing changes;
      otherwise exactly one user is added, under a fresh id, with the
      hash of the password and the role `user`. */
  lemma RegisterOutcome(s: State, name: string, email: string, password: string, hash: string -> string, now: int)
    requires IdsBelowNext(s)
    ensures var r := RegisterStep(s, name, email, password, hash, now);
      && (r.code == 400 <==> EmailUsed(s.users, email))
      && (r.code == 201 <==> !EmailUsed(s.users, email))
      && (r.code != 201 ==> r.state == s)
      && (r.code == 201 ==>
            && s.nextId !in s.users
            && r.state.users == s.users[s.nextId := User(name, email, hash(password), UserRole, now)]
            && r.state.users[s.nextId].passwordHash == hash(password)
            && r.state == s.(users := r.state.users, nextId := s.nextId + 1))
  {
  }

  lemma RegisterKeepsValid(s: State, name: string, email: string, password: string, hash: string -> string, now: int)
    requires Valid(s)
    ensures Valid(RegisterStep(s, name, email, password, hash, now).state)
  {
    var r := RegisterStep(s, name, email, password, hash, now);
    if r.code == 201 {
      var t := r.state;
      assert EmailsUnique(t.users) by {
        forall a, b | a in t.users && b in t.users && t.users[a].email == t.users[b].email
          ensures a == b
        {
          if a == s.nextId || b == s.nextId {
            assert !EmailUsed(s.users, email);
          }
        }
      }
      assert RefsResolve(t) by {
        assert s.users.Keys <= t.users.Keys;
      }
    }
  }

  // =====================================================================
  // login

  /** `user.findUnique({ where: { email } })` */
  function UserWithEmail(users: map<Id, User>, email: string): (r: Option<Id>)
    requires EmailsUnique(users)
    ensures r.Some? <==> EmailUsed(users, email)
    ensures r.Some? ==> r.value in users && users[r.value].email == email
  {
    if EmailUsed(users, email) then
      var k :| k in users && users[k].email == email;
      Some(k)
    else None
  }

  /** The payload of the signed token; it expires after 2 hours. */
  datatype Token = Token(userId: Id, role: Role, expiresInSeconds: nat)

  datatype LoginReply = LoggedIn(token: Token, user: PublicUser) | LoginFailed(code: nat, message: Msg)

  /** `email` or `password` is None when the body lacks it: the lookup, or
      the comparison, then throws and the handler answers 500.
      `secretSet` says whether the signing secret is configured. */
  function LoginStep(s: State, email: Option<string>, password: Option<string>,
                     matches: (string, string) -> bool, secretSet: bool): LoginReply
    requires EmailsUnique(s.users)
  {
    if email.None? then LoginFailed(500, InternalServerError)
    else match UserWithEmail(s.users, email.value)
      case None => LoginFailed(404, UserNotFound)
      case Some(k) =>
        var u := s.users[k];
        if password.None? then LoginFailed(500, InternalServerError)
        else if !matches(password.value, u.passwordHash) then LoginFailed(401, WrongPassword)
        else if !secretSet then LoginFailed(500, SecretNotConfigured)
        else LoggedIn(Token(k, u.role, 7200), PublicView(k, u))
  }

  method Login(db: Db, email: Option<string>, password: Option<string>,
               matches: (string, string) -> bool, secretSet: bool) returns (r: LoginReply)
    requires EmailsUnique(db.users)
    ensures r == LoginStep(db.Snapshot(), email, password, matches, secretSet)
  {
    if email.None? {
      return LoginFailed(500, InternalServerError);
    }
    if !exists k :: k in db.users && db.users[k].email == email.value {
      return LoginFailed(404, UserNotFound);
    }
    var k :| k in db.users && db.users[k].email == email.value;
    var u := db.users[k];
    if password.None? {
      return LoginFailed(500, InternalServerError);
    }
    if !matches(password.value, u.passwordHash) {
      return LoginFailed(401, WrongPassword);
    }
    if !secretSet {
      return LoginFailed(500, SecretNotConfigured);
    }
    return LoggedIn(Token(k, u.role, 7200), PublicView(k, u));
  }

  /** 404 exactly for an unknown email, 401 exactly when the password does
      not match the stored hash, 500 when the secret is missing; a token is
      issued only for the user with that email, carrying their id and role
      and a two-hour expiry. */
  lemma LoginOutcome(s: State, email: string, password: string, matches: (string, string) -> bool, secretSet: bool)
    requires EmailsUnique(s.users)
    ensures var r := LoginStep(s, Some(email), Some(password), matches, secretSet);
      && (r == LoginFailed(404, UserNotFound) <==> !EmailUsed(s.users, email))
      && (r == LoginFailed(401, WrongPassword) <==>
            exists k :: k in s.users && s.users[k].email == email && !matches(password, s.users[k].passwordHash))
      && (r.LoggedIn? <==>
            secretSet && exists k :: k in s.users && s.users[k].email == email && matches(password, s.users[k].passwordHash))
      && (r.LoggedIn? ==>
            && r.token.userId in s.users && s.users[r.token.userId].email == email
            && r.token.role == s.users[r.token.userId].role && r.token.expiresInSeconds == 2 * 60 * 60
            && r.user == PublicView(r.token.userId, s.users[r.token.userId]))
  {
  }

  /** Whoever registers can then log in with the same email and password,
      and gets the new account, as long as the hash checks out against its
      password. */
  lemma RegisterThenLogin(s: State, name: string, email: string, password: string,
                          hash: string -> string, matches: (string, string) -> bool, now: int)
    requires Valid(s)
    requires matches(password, hash(password))
    ensures var r := RegisterStep(s, name, email, password, hash, now);
      r.code == 201 ==>
        && EmailsUnique(r.state.users)
        && LoginStep(r.state, Some(email), Some(password), matches, true)
             == LoggedIn(Token(s.nextId, UserRole, 7200), PublicUser(s.nextId, name, email, UserRole))
  {
    var r := RegisterStep(s, name, email, password, hash, now);
    if r.code == 201 {
      RegisterKeepsValid(s, name, email, password, hash, now);
      var k := UserWithEmail(r.state.users, email);
      assert r.state.users[s.nextId].email == email;
    }
  }

  // =====================================================================
  // getProfile

  function GetProfile(s: State, caller: Id): (r: Lookup<PublicUser>)
    ensures r.Found? <==> caller in s.users
    ensures r.Found? ==> r.item == PublicView(caller, s.users[caller])
    ensures r.NotFound? ==> r.code == 404 && r.message == UserNotFound
  {
    if caller in s.users then Found(PublicView(caller, s.users[caller])) else NotFound(404, UserNotFound)
  }

  // =====================================================================
  // updateProfile

  /** The supplied fields, trimmed; the others as they were. */
  function PatchProfile(u: User, name: Option<string>, email: Option<string>): User {
    u.(name := if Present(name) then Trim(name.value) else u.name,
       email := if Present(email) then Trim(email.value) else u.email)
  }

  /** The taken-email check compares the email as sent, but the stored
      email is trimmed: a padded copy of another user's email passes the
      check and is then refused by the unique index, which this handler's
      own catch answers with 500. An unknown caller makes the update throw,
      with the same answer. */
  function UpdateProfileStep(s: State, caller: Id, name: Option<string>, email: Option<string>): Reply {
    if !Present(name) && !Present(email) then Reply(400, ProfileFieldRequired, s)
    else if Present(email) && EmailOfOther(s.users, caller, email.value) then Reply(400, EmailInUseByOther, s)
    else if caller !in s.users then Reply(500, InternalServerError, s)
    else
      var u := PatchProfile(s.users[caller], name, email);
      if EmailOfOther(s.users, caller, u.email) then Reply(500, InternalServerError, s)
      else Reply(200, ProfileUpdated, s.(users := s.users[caller := u]))
  }

  method UpdateProfile(db: Db, caller: Id, name: Option<string>, email: Option<string>) returns (code: nat, message: Msg)
    modifies db
    ensures Reply(code, message, db.Snapshot()) == UpdateProfileStep(old(db.Snapshot()), caller, name, email)
  {
    if !Present(name) && !Present(email) {
      return 400, ProfileFieldRequired;
    }
    if Present(email) && exists k :: k in db.users && k != caller && db.users[k].email == email.value {
      return 400, EmailInUseByOther;
    }
    if caller !in db.users {
      return 500, InternalServerError;
    }
    var u := PatchProfile(db.users[caller], name, email);
    if exists k :: k in db.users && k != caller && db.users[k].email == u.email {
      return 500, InternalServerError;
    }
    db.users := db.users[caller := u];
    return 200, ProfileUpdated;
  }

  /** 400 exactly when neither field is sent, or when another user has the
      email as sent (the caller's own email is allowed); past that check,
      500 exactly for an unknown caller or when another user has the
      trimmed email, and 200 otherwise. A success changes only the caller's
      name and email, each to the trimmed value when it was sent, and no
      other user or table. */
  lemma UpdateProfileOutcome(s: State, caller: Id, name: Option<string>, email: Option<string>)
    requires EmailsUnique(s.users)
    ensures var r := UpdateProfileStep(s, caller, name, email);
      && (r.code == 400 <==> (!Present(name) && !Present(email))
                             || (Present(email) && EmailOfOther(s.users, caller, email.value)))
      && (r.code == 500 <==> (Present(name) || Present(email))
                             && !(Present(email) && EmailOfOther(s.users, caller, email.value))
                             && (caller !in s.users
                                 || (Present(email) && EmailOfOther(s.users, caller, Trim(email.value)))))
      && (r.code == 200 <==> (Present(name) || Present(email))
                             && !(Present(email) && EmailOfOther(s.users, caller, email.value))
                             && caller in s.users
                             && !(Present(email) && EmailOfOther(s.users, caller, Trim(email.value))))
      && (r.code != 200 ==> r.state == s)
      && (r.code == 200 ==>
            && caller in s.users && r.state.users.Keys == s.users.Keys
            && r.state.users[caller] == PatchProfile(s.users[caller], name, email)
            && r.state.users[caller].name == (if Present(name) then Trim(name.value) else s.users[caller].name)
            && r.state.users[caller].email == (if Present(email) then Trim(email.value) else s.users[caller].email)
            && r.state.users[caller].passwordHash == s.users[caller].passwordHash
            && r.state.users[caller].role == s.users[caller].role
            && r.state.users[caller].createdAt == s.users[caller].createdAt
            && (forall k :: k in s.users && k != caller ==> r.state.users[k] == s.users[k])
            && r.state == s.(users := r.state.users))
      && (Present(email) && caller in s.users && s.users[caller].email == email.value ==> r.code != 400)
      && (!Present(email) && caller in s.users && (Present(name)) ==> r.code == 200)
  {
  }

  /** A padded copy of another user's email gets past the check and fails
      at the unique index. */
  lemma PaddedEmailFailsLate(s: State, caller: Id, other: Id)
    requires caller in s.users && other in s.users && caller != other
    requires s.users[other].email == "a@b.co" && !EmailOfOther(s.users, caller, " a@b.co")
    ensures UpdateProfileStep(s, caller, None, Some(" a@b.co")).code == 500
  {
    var u := PatchProfile(s.users[caller], None, Some(" a@b.co"));
    assert Trim(" a@b.co") == "a@b.co" by {
      assert TrimStart(" a@b.co") == "a@b.co";
    }
    assert u.email == "a@b.co";
  }

  lemma UpdateProfileKeepsValid(s: State, caller: Id, name: Option<string>, email: Option<string>)
    requires Valid(s)
    ensures Valid(UpdateProfileStep(s, caller, name, email).state)
  {
    var r := UpdateProfileStep(s, caller, name, email);
    if r.code == 200 {
      var t := r.state;
      assert EmailsUnique(t.users) by {
        forall a, b | a in t.users && b in t.users && t.users[a].email == t.users[b].email
          ensures a == b
        {
        }
      }
    }
  }

  // =====================================================================
  // changePassword

  function ChangePasswordStep(s: State, caller: Id, current: Option<string>, newPassword: Option<string>,
                              hash: string -> string, matches: (string, string) -> bool): Reply {
    if !Present(current) || !Present(newPassword) then Reply(400, PasswordsRequired, s)
    else if |newPassword.value| < 6 then Reply(400, NewPasswordTooShort, s)
    else if caller !in s.users then Reply(404, UserNotFound, s)
    else if !matches(current.value, s.users[caller].passwordHash) then Reply(400, CurrentPasswordIncorrect, s)
    else
      Reply(200, PasswordChanged,
            s.(users := s.users[caller := s.users[caller].(passwordHash := hash(newPassword.value))]))
  }

  method ChangePassword(db: Db, caller: Id, current: Option<string>, newPassword: Option<string>,
                        hash: string -> string, matches: (string, string) -> bool) returns (code: nat, message: Msg)
    modifies db
    ensures Reply(code, message, db.Snapshot())
         == ChangePasswordStep(old(db.Snapshot()), caller, current, newPassword, hash, matches)
  {
    if !Present(current) || !Present(newPassword) {
      return 400, PasswordsRequired;
    }
    if |newPassword.value| < 6 {
      return 400, NewPasswordTooShort;
    }
    if caller !in db.users {
      return 404, UserNotFound;
    }
    var u := db.users[caller];
    if !matches(current.value, u.passwordHash) {
      return 400, CurrentPasswordIncorrect;
    }
    db.users := db.users[caller := u.(passwordHash := hash(newPassword.value))];
    return 200, PasswordChanged;
  }

  /** 400 for a missing field or a new password under 6 characters, 404
      for an unknown caller, 400 with nothing changed when the current
      password does not match; a success replaces only the caller's hash,
      with the hash of the new password. */
  lemma ChangePasswordOutcome(s: State, caller: Id, current: Option<string>, newPassword: Option<string>,
                              hash: string -> string, matches: (string, string) -> bool)
    ensures var r := ChangePasswordStep(s, caller, current, newPassword, hash, matches);
      && (r.code == 200 <==> Present(current) && Present(newPassword) && |newPassword.value| >= 6
                             && caller in s.users && matches(current.value, s.users[caller].passwordHash))
      && (r.code == 404 <==> Present(current) && Present(newPassword) && |newPassword.value| >= 6
                             && caller !in s.users)
      && (r.code != 200 ==> r.state == s)
      && (r.code == 200 ==>
            && r.state.users == s.users[caller := s.users[caller].(passwordHash := hash(newPassword.value))]
            && r.state == s.(users := r.state.users))
  {
  }

  lemma ChangePasswordKeepsValid(s: State, caller: Id, current: Option<string>, newPassword: Option<string>,
                                 hash: string -> string, matches: (string, string) -> bool)
    requires Valid(s)
    ensures Valid(ChangePasswordStep(s, caller, current, newPassword, hash, matches).state)
  {
    var r := ChangePasswordStep(s, caller, current, newPassword, hash, matches);
    if r.code == 200 {
      var t := r.state;
      assert EmailsUnique(t.users) by {
        forall a, b | a in t.users && b in t.users && t.users[a].email == t.users[b].email
          ensures a == b
        {
          assert t.users[a].email == s.users[a].email && t.users[b].email == s.users[b].email;
        }
      }
    }
  }

  /** After a password change the new password logs in, and the old one no
      longer does unless it also matches the new hash. */
  lemma ChangeThenLogin(s: State, caller: Id, current: string, newPassword: string,
                        hash: string -> string, matches: (string, string) -> bool)
    requires Valid(s)
    requires matches(newPassword, hash(newPassword))
    ensures var r := ChangePasswordStep(s, caller, Some(current), Some(newPassword), hash, matches);
      r.code == 200 ==>
        && EmailsUnique(r.state.users)
        && LoginStep(r.state, Some(s.users[caller].email), Some(newPassword), matches, true).LoggedIn?
        && (!matches(current, hash(newPassword)) ==>
              LoginStep(r.state, Some(s.users[caller].email), Some(current), matches, true)
                == LoginFailed(401, WrongPassword))
  {
    var r := ChangePasswordStep(s, caller, Some(current), Some(newPassword), hash, matches);
    if r.code == 200 {
      ChangePasswordKeepsValid(s, caller, Some(current), Some(newPassword), hash, matches);
      var email := s.users[caller].email;
      assert r.state.users[caller].email == email;
      var k := UserWithEmail(r.state.users, email);
      assert k == Some(caller);
    }
  }
}
