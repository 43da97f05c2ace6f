/** The user service: registration (build, validate, hash, insert under the
    unique indexes) and login (find by e-mail, compare the password, sign a
    one-day token over the id). Password hashing, comparison and token
    signing are parameters. */
module UserService {
  import opened Wrappers
  import opened Text
  import opened Calendar
  import opened Mongoose
  import opened UserModel

  const InvalidCredentials: string := "Invalid email or password"

  /** What a login returns about the user: exactly these four fields. */
  datatype PublicUser = PublicUser(id: ObjectId, username: string, email: string, monthlyBudget: int)

  /** The payload and expiry handed to `jwt.sign`. */
  datatype TokenClaims = TokenClaims(id: ObjectId, expiresIn: string)

  datatype Session = Session(token: string, user: PublicUser)

  function Projection(u: User): (p: PublicUser)
    ensures p.id == u.id && p.username == u.username && p.email == u.email
    ensures p.monthlyBudget == u.monthlyBudget
  {
    PublicUser(u.id, u.username, u.email, u.monthlyBudget)
  }

  /** `loginUser(email, password)`. The query's e-mail passes through the
      path's setters, so it is trimmed and lowercased before the match. */
  function LoginUser(users: seq<User>, email: string, password: string,
                     compare: (string, string) -> bool, sign: TokenClaims -> string)
    : (r: Result<Session, string>)
    ensures r.Err? ==> r.error == InvalidCredentials
    ensures r.Ok? <==> && FindUserByEmail(users, NormalizeEmail(email)).Some?
                       && compare(password, FindUserByEmail(users, NormalizeEmail(email)).value.password)
    ensures r.Ok? ==> var u := FindUserByEmail(users, NormalizeEmail(email)).value;
                      && r.value.user == Projection(u)
                      && r.value.token == sign(TokenClaims(u.id, "1d"))
  {
    match FindUserByEmail(users, NormalizeEmail(email))
    case None => Err(InvalidCredentials)
    case Some(u) =>
      if !compare(password, u.password) then Err(InvalidCredentials)
      else Ok(Session(sign(TokenClaims(u.id, "1d")), Projection(u)))
  }

  /** An unknown e-mail and a wrong password are answered identically. */
  lemma LoginFailuresIndistinguishable(users1: seq<User>, users2: seq<User>, email1: string, email2: string,
                                       password1: string, password2: string,
                                       compare: (string, string) -> bool, sign: TokenClaims -> string)
    requires forall u :: u in users1 ==> u.email != NormalizeEmail(email1)
    requires FindUserByEmail(users2, NormalizeEmail(email2)).Some?
    requires !compare(password2, FindUserByEmail(users2, NormalizeEmail(email2)).value.password)
    ensures LoginUser(users1, email1, password1, compare, sign)
         == LoginUser(users2, email2, password2, compare, sign)
         == Err(InvalidCredentials)
  {
  }

  /** The e-mail is matched as the schema stores it: with unique e-mails, any
      spelling that differs only by surrounding spaces and ASCII case logs in
      the user registered under it. */
  lemma LoginFindsRegisteredUser(users: seq<User>, u: User, typed: string, password: string,
                                 compare: (string, string) -> bool, sign: TokenClaims -> string)
    requires UsersUnique(users) && u in users
    requires NormalizeEmail(typed) == u.email
    requires compare(password, u.password)
    ensures LoginUser(users, typed, password, compare, sign) == Ok(Session(sign(TokenClaims(u.id, "1d")), Projection(u)))
  {
    var found := FindUserByEmail(users, u.email).value;
    var i :| 0 <= i < |users| && users[i] == u;
    var j :| 0 <= j < |users| && users[j] == found;
    assert i == j;
  }

  /** A failed insert: the validation messages, or the unique index the new
      document collides with. */
  datatype RegisterError = Invalid(messages: seq<string>) | DuplicateKey(index: string)

  /** `save()` of a valid new document against the unique indexes on `_id`
      and `email`. */
  function InsertUnique(users: seq<User>, u: User): (r: (Result<User, RegisterError>, seq<User>))
    ensures r.0.Err? ==> r.1 == users
    ensures r.0.Ok? <==> forall v :: v in users ==> v.id != u.id && v.email != u.email
    ensures r.0.Ok? ==> r.0.value == u && r.1 == users + [u]
    ensures UsersUnique(users) ==> UsersUnique(r.1)
  {
    if FindUserById(users, u.id).Some? then (Err(DuplicateKey("_id")), users)
    else if FindUserByEmail(users, u.email).Some? then (Err(DuplicateKey("email")), users)
    else (Ok(u), users + [u])
  }

  /** `registerUser(data)`: the result and the collection after it. */
  function RegisterUser(users: seq<User>, f: UserFields, id: ObjectId, now: DateTime, hash: string -> string)
    : (r: (Result<User, RegisterError>, seq<User>))
    ensures r.0.Err? ==> r.1 == users
    ensures var doc := NewUserDoc(f, id, now, hash);
            && (doc.Err? ==> r.0 == Err(Invalid(doc.error)))
            && (r.0.Ok? <==> && doc.Ok?
                             && forall u :: u in users ==> u.id != id && u.email != doc.value.email)
            && (r.0.Ok? ==> r.0.value == doc.value && r.1 == users + [r.0.value])
    ensures UsersUnique(users) ==> UsersUnique(r.1)
  {
    var doc := NewUserDoc(f, id, now, hash);
    if doc.Err? then (Err(Invalid(doc.error)), users)
    else InsertUnique(users, doc.value)
  }

  /** A registered user can log in with the e-mail and password they gave,
      given a hash the comparison accepts. */
  lemma RegisterThenLogin(users: seq<User>, f: UserFields, id: ObjectId, now: DateTime,
                          hash: string -> string, compare: (string, string) -> bool,
                          sign: TokenClaims -> string)
    requires UsersUnique(users)
    requires RegisterUser(users, f, id, now, hash).0.Ok?
    requires forall p :: compare(p, hash(p))
    ensures var u := RegisterUser(users, f, id, now, hash).0.value;
            LoginUser(RegisterUser(users, f, id, now, hash).1, f.email.value, f.password.value, compare, sign)
              == Ok(Session(sign(TokenClaims(id, "1d")), Projection(u)))
  {
    var r := RegisterUser(users, f, id, now, hash);
    var u := r.0.value;
    assert compare(f.password.value, hash(f.password.value));
    LoginFindsRegisteredUser(r.1, u, f.email.value, f.password.value, compare, sign);
  }

  /** `save()` of the stored user at position `i` at time `now`, where
      `newPassword` is the value given to `user.password` since the user was
      loaded, if any. Mongoose marks the path modified only when the value
      differs from the stored one; the `pre('save')` hook then hashes the
      new value, and the timestamps plugin bumps `updatedAt`. A save with
      nothing modified writes nothing. */
  function SaveUser(users: seq<User>, i: nat, newPassword: Option<string>, hash: string -> string, now: DateTime)
    : (r: seq<User>)
    requires i < |users|
    ensures |r| == |users|
    ensures forall k :: 0 <= k < |users| && k != i ==> r[k] == users[k]
    ensures newPassword.None? || newPassword.value == users[i].password ==> r == users
    ensures newPassword.Some? && newPassword.value != users[i].password ==>
              && r[i].password == hash(newPassword.value)
              && r[i].updatedAt == now
              && r[i] == users[i].(password := r[i].password, updatedAt := now)
    ensures UsersUnique(users) ==> UsersUnique(r)
  {
    var modified := newPassword.Some? && newPassword.value != users[i].password;
    if !modified then users
    else users[i := users[i].(password := PasswordOnSave(newPassword.value, modified, hash), updatedAt := now)]
  }

  /** The hook as it would be without its `isModified` check: every save
      hashes the stored password again. */
  function SaveRehashing(users: seq<User>, i: nat, hash: string -> string, now: DateTime): (r: seq<User>)
    requires i < |users|
    ensures |r| == |users| && r[i].password == hash(users[i].password)
    ensures r[i].id == users[i].id && r[i].email == users[i].email
    ensures UsersUnique(users) ==> UsersUnique(r)
  {
    users[i := users[i].(password := hash(users[i].password), updatedAt := now)]
  }

  /** Saving a registered user again without assigning a new password keeps
      the stored hash: the password given at registration still logs in. */
  lemma ResaveKeepsLogin(users: seq<User>, f: UserFields, id: ObjectId, now: DateTime, later: DateTime,
                         hash: string -> string, compare: (string, string) -> bool,
                         sign: TokenClaims -> string)
    requires UsersUnique(users)
    requires RegisterUser(users, f, id, now, hash).0.Ok?
    requires forall p :: compare(p, hash(p))
    ensures var r := RegisterUser(users, f, id, now, hash);
            LoginUser(SaveUser(r.1, |users|, None, hash, later), f.email.value, f.password.value, compare, sign)
              == Ok(Session(sign(TokenClaims(id, "1d")), Projection(r.0.value)))
  {
    var r := RegisterUser(users, f, id, now, hash);
    assert SaveUser(r.1, |users|, None, hash, later) == r.1;
    RegisterThenLogin(users, f, id, now, hash, compare, sign);
  }

  /** With unique e-mails, a login under the e-mail of the user at `j`
      is decided by that user's stored password alone. */
  lemma LoginAt(users: seq<User>, j: nat, typed: string, password: string,
                compare: (string, string) -> bool, sign: TokenClaims -> string)
    requires UsersUnique(users) && j < |users|
    requires NormalizeEmail(typed) == users[j].email
    ensures LoginUser(users, typed, password, compare, sign)
         == if compare(password, users[j].password)
            then Ok(Session(sign(TokenClaims(users[j].id, "1d")), Projection(users[j])))
            else Err(InvalidCredentials)
  {
    assert users[j] in users;
    var found := FindUserByEmail(users, users[j].email).value;
    var k :| 0 <= k < |users| && users[k] == found;
    assert k == j;
  }

  /** The user a successful registration appends: last in the store, under
      the normalised e-mail, with the hash of the password. */
  lemma Registered(users: seq<User>, f: UserFields, id: ObjectId, now: DateTime, hash: string -> string)
    requires UsersUnique(users)
    requires RegisterUser(users, f, id, now, hash).0.Ok?
    ensures var r := RegisterUser(users, f, id, now, hash);
            && |r.1| == |users| + 1 && UsersUnique(r.1)
            && r.1[|users|] == r.0.value && r.0.value.id == id
            && r.0.value.email == NormalizeEmail(f.email.value)
            && r.0.value.password == hash(f.password.value)
  {
  }

  /** Assigning a new password and saving stores its hash: the new password
      logs in, and with a comparison that accepts exactly the hash of the
      password, the old one no longer does (unless both hash alike). */
  lemma ChangePasswordThenLogin(users: seq<User>, f: UserFields, id: ObjectId, now: DateTime, later: DateTime,
                                p: string, hash: string -> string, compare: (string, string) -> bool,
                                sign: TokenClaims -> string)
    requires UsersUnique(users)
    requires RegisterUser(users, f, id, now, hash).0.Ok?
    requires p != hash(f.password.value)
    requires forall x, h :: compare(x, h) <==> h == hash(x)
    ensures var r := RegisterUser(users, f, id, now, hash);
            var after := SaveUser(r.1, |users|, Some(p), hash, later);
            && LoginUser(after, f.email.value, p, compare, sign)
                 == Ok(Session(sign(TokenClaims(id, "1d")), Projection(after[|users|])))
            && (hash(f.password.value) != hash(p) ==>
                  LoginUser(after, f.email.value, f.password.value, compare, sign) == Err(InvalidCredentials))
  {
    Registered(users, f, id, now, hash);
    var r := RegisterUser(users, f, id, now, hash);
    var after := SaveUser(r.1, |users|, Some(p), hash, later);
    assert after[|users|].password == hash(p) && after[|users|].id == id;
    assert after[|users|].email == NormalizeEmail(f.email.value);
    LoginAt(after, |users|, f.email.value, p, compare, sign);
    LoginAt(after, |users|, f.email.value, f.password.value, compare, sign);
  }

  /** Why the hook checks `isModified`: when the comparison accepts exactly
      the hash of the password, a hook that hashed the stored hash again on
      every save would lock the user out (unless the hash happens to be a
      fixed point), where the guarded save keeps the login. */
  lemma RehashLocksOut(users: seq<User>, f: UserFields, id: ObjectId, now: DateTime, later: DateTime,
                       hash: string -> string, compare: (string, string) -> bool,
                       sign: TokenClaims -> string)
    requires UsersUnique(users)
    requires RegisterUser(users, f, id, now, hash).0.Ok?
    requires forall p, h :: compare(p, h) <==> h == hash(p)
    requires hash(hash(f.password.value)) != hash(f.password.value)
    ensures var r := RegisterUser(users, f, id, now, hash);
            && LoginUser(SaveRehashing(r.1, |users|, hash, later), f.email.value, f.password.value, compare, sign)
                 == Err(InvalidCredentials)
            && LoginUser(SaveUser(r.1, |users|, None, hash, later), f.email.value, f.password.value, compare, sign).Ok?
  {
    Registered(users, f, id, now, hash);
    var r := RegisterUser(users, f, id, now, hash);
    RehashedLoginFails(r.1, |users|, f.email.value, f.password.value, hash, compare, sign, later);
    ResaveKeepsLogin(users, f, id, now, later, hash, compare, sign);
  }

  lemma RehashedLoginFails(users: seq<User>, j: nat, typed: string, password: string, hash: string -> string,
                           compare: (string, string) -> bool, sign: TokenClaims -> string, later: DateTime)
    requires UsersUnique(users) && j < |users|
    requires NormalizeEmail(typed) == users[j].email && users[j].password == hash(password)
    requires forall p, h :: compare(p, h) <==> h == hash(p)
    requires hash(hash(password)) != hash(password)
    ensures LoginUser(SaveRehashing(users, j, hash, later), typed, password, compare, sign) == Err(InvalidCredentials)
  {
    LoginAt(SaveRehashing(users, j, hash, later), j, typed, password, compare, sign);
  }
}
