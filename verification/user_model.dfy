/** The User schema: a trimmed username, a unique e-mail that is trimmed,
    lower-cased and matched against the e-mail pattern, a password of at least
    six characters that is hashed before it is stored, a monthly budget
    defaulting to 0, and a profile picture path with a default. */
module UserModel {
  import opened Wrappers
  import opened Text
  import opened Calendar
  import opened Mongoose
  import opened EmailPattern

  const MinPasswordLength: nat := 6
  const DefaultProfilePic: string := "/images/default-avatar.png"
  const DefaultMonthlyBudget: int := 0

  datatype User = User(
    id: ObjectId,
    username: string,
    email: string,
    password: string,
    monthlyBudget: int,
    profilePic: string,
    createdAt: DateTime,
    updatedAt: DateTime)

  /** What `new User(data)` is given; an absent key is `None`. */
  datatype UserFields = UserFields(
    username: Option<string>,
    email: Option<string>,
    password: Option<string>,
    monthlyBudget: Option<int>,
    profilePic: Option<string>)

  /** The e-mail path's setters: `trim` and `lowercase`. */
  function NormalizeEmail(e: string): (r: string)
    ensures |r| <= |e|
    ensures forall i :: 0 <= i < |r| ==> !IsUpperAscii(r[i])
    ensures r == [] || (!IsJsSpace(r[0]) && !IsJsSpace(r[|r| - 1]))
  {
    Lower(Trim(e))
  }

  /** Lower-casing never creates or removes white space. */
  lemma LowerKeepsSpaces(s: string)
    ensures forall i :: 0 <= i < |s| ==> (IsJsSpace(Lower(s)[i]) <==> IsJsSpace(s[i]))
  {
  }

  /** The order of the two setters does not matter: trimming and lower-casing
      commute. */
  lemma LowerTrimCommute(s: string)
    ensures Trim(Lower(s)) == Lower(Trim(s))
  {
    var l := Lower(s);
    LowerKeepsSpaces(s);
    SpaceRunEndSame(s, l, 0);
    var a := SpaceRunEnd(s, 0);
    SpaceRunStartSame(s, l, a, |s|);
    var b := SpaceRunStart(s, a, |s|);
    assert Trim(l) == l[a..b];
    assert Trim(s) == s[a..b];
    LowerSlice(s, a, b);
  }

  /** Lower-casing a slice is slicing the lower-cased string. */
  lemma LowerSlice(s: string, a: nat, b: nat)
    requires a <= b <= |s|
    ensures Lower(s[a..b]) == Lower(s)[a..b]
  {
    var x := Lower(s[a..b]);
    var y := Lower(s)[a..b];
    assert x == y by {
      assert |x| == b - a == |y|;
      forall i | 0 <= i < b - a
        ensures x[i] == y[i]
      {
        assert s[a..b][i] == s[a + i];
      }
    }
  }

  /** Normalising a normalised address changes nothing. */
  lemma NormalizeEmailIdempotent(e: string)
    ensures NormalizeEmail(NormalizeEmail(e)) == NormalizeEmail(e)
  {
    var t := Trim(e);
    TrimOfTrimmed(t);
    LowerTrimCommute(t);
    LowerIdempotent(t);
  }

  lemma {:induction false} SpaceRunEndSame(s: string, l: string, i: nat)
    requires |l| == |s| && i <= |s|
    requires forall k :: 0 <= k < |s| ==> (IsJsSpace(l[k]) <==> IsJsSpace(s[k]))
    ensures SpaceRunEnd(l, i) == SpaceRunEnd(s, i)
    decreases |s| - i
  {
    if i < |s| && IsJsSpace(s[i]) {
      SpaceRunEndSame(s, l, i + 1);
    }
  }

  lemma {:induction false} SpaceRunStartSame(s: string, l: string, lo: nat, j: nat)
    requires |l| == |s| && lo <= j <= |s|
    requires forall k :: 0 <= k < |s| ==> (IsJsSpace(l[k]) <==> IsJsSpace(s[k]))
    ensures SpaceRunStart(l, lo, j) == SpaceRunStart(s, lo, j)
    decreases j - lo
  {
    if j > lo && IsJsSpace(s[j - 1]) {
      SpaceRunStartSame(s, l, lo, j - 1);
    }
  }

  /** The schema paths that can fail validation. */
  datatype UserPath = UsernamePath | EmailPath | PasswordPath

  /** The message each failing path reports: `required` is checked first, then
      `match` (which passes the empty string) or `minlength`. */
  function UserPathMessage(p: UserPath, f: UserFields): string
  {
    match p
    case UsernamePath => "Username is required"
    case EmailPath =>
      if f.email.None? || NormalizeEmail(f.email.value) == [] then "Email is required"
      else "Please fill a valid email address"
    case PasswordPath =>
      if f.password.None? || f.password.value == [] then "Password is required"
      else "Password must be at least 6 characters long"
  }

  predicate EmailAccepted(f: UserFields)
  {
    f.email.Some? && IsEmail(NormalizeEmail(f.email.value))
  }

  predicate PasswordAccepted(f: UserFields)
  {
    f.password.Some? && |f.password.value| >= MinPasswordLength
  }

  /** The paths that fail validation, in schema order. The password is
      validated as given, before the save hook hashes it. */
  function UserFailures(f: UserFields): (r: seq<UserPath>)
    ensures UsernamePath in r <==> !RequiredString(TrimmedPath(f.username))
    ensures EmailPath in r <==> !EmailAccepted(f)
    ensures PasswordPath in r <==> !PasswordAccepted(f)
    ensures r == [] <==> && RequiredString(TrimmedPath(f.username))
                         && EmailAccepted(f) && PasswordAccepted(f)
  {
    FailingPaths(RequiredString(TrimmedPath(f.username)), EmailAccepted(f), PasswordAccepted(f))
  }

  /** The failing paths, in schema order, given which paths pass. */
  function FailingPaths(usernameOk: bool, emailOk: bool, passwordOk: bool): (r: seq<UserPath>)
    ensures UsernamePath in r <==> !usernameOk
    ensures EmailPath in r <==> !emailOk
    ensures PasswordPath in r <==> !passwordOk
    ensures r == [] <==> usernameOk && emailOk && passwordOk
  {
    (if usernameOk then [] else [UsernamePath])
    + (if emailOk then [] else [EmailPath])
    + (if passwordOk then [] else [PasswordPath])
  }

  /** An e-mail the pattern accepts is never empty, so the `required` check
      never fails on its own for an accepted address. */
  lemma AcceptedEmailNonEmpty(e: string)
    requires IsEmail(e)
    ensures e != []
  {
  }

  /** The `pre('save')` hook: the password is hashed only when it was modified. */
  function PasswordOnSave(password: string, modified: bool, hash: string -> string): (r: string)
    ensures !modified ==> r == password
    ensures modified ==> r == hash(password)
  {
    if modified then hash(password) else password
  }

  /** A stored user satisfies the schema. */
  predicate ValidUser(u: User)
  {
    && u.username != [] && Trim(u.username) == u.username
    && NormalizeEmail(u.email) == u.email && IsEmail(u.email)
  }

  /** Building and validating a new user document: on success every path
      holds its input after setters and defaults, the password is hashed
      (it is modified on a new document), and both timestamps are `now`. */
  function NewUserDoc(f: UserFields, id: ObjectId, now: DateTime, hash: string -> string)
    : (r: Result<User, seq<string>>)
    ensures r.Ok? <==> && RequiredString(TrimmedPath(f.username))
                       && EmailAccepted(f) && PasswordAccepted(f)
    ensures r.Ok? ==> && r.value.id == id
                      && r.value.username == Trim(f.username.value)
                      && r.value.email == NormalizeEmail(f.email.value)
                      && r.value.password == hash(f.password.value)
                      && r.value.monthlyBudget == f.monthlyBudget.GetOr(DefaultMonthlyBudget)
                      && r.value.profilePic == f.profilePic.GetOr(DefaultProfilePic)
                      && r.value.createdAt == now && r.value.updatedAt == now
                      && ValidUser(r.value)
    ensures r.Err? ==> |r.error| >= 1
  {
    var failures := UserFailures(f);
    if failures != [] then
      Err(seq(|failures|, i requires 0 <= i < |failures| => UserPathMessage(failures[i], f)))
    else
      var email := NormalizeEmail(f.email.value);
      NormalizeEmailIdempotent(f.email.value);
      Ok(User(id, Trim(f.username.value), email,
              PasswordOnSave(f.password.value, true, hash),
              f.monthlyBudget.GetOr(DefaultMonthlyBudget),
              f.profilePic.GetOr(DefaultProfilePic), now, now))
  }

  // ---------------------------------------------------------------------
  // The users collection.
  // ---------------------------------------------------------------------

  /** `User.findOne` on one path: the first user whose `key` is `k`. */
  function FindUserBy<K(==)>(users: seq<User>, key: User -> K, k: K): (r: Option<User>)
    ensures r.Some? ==> r.value in users && key(r.value) == k
    ensures r.None? <==> forall u :: u in users ==> key(u) != k
  {
    if users == [] then None
    else if key(users[0]) == k then Some(users[0])
    else FindUserBy(users[1..], key, k)
  }

  /** `User.findById(id)`. */
  function FindUserById(users: seq<User>, id: ObjectId): (r: Option<User>)
    ensures r.Some? ==> r.value in users && r.value.id == id
    ensures r.None? <==> forall u :: u in users ==> u.id != id
  {
    FindUserBy(users, (u: User) => u.id, id)
  }

  /** `User.findOne({ email })`, on the stored e-mail. */
  function FindUserByEmail(users: seq<User>, email: string): (r: Option<User>)
    ensures r.Some? ==> r.value in users && r.value.email == email
    ensures r.None? <==> forall u :: u in users ==> u.email != email
  {
    FindUserBy(users, (u: User) => u.email, email)
  }

  /** The unique indexes on `_id` and `email`. */
  predicate UsersUnique(users: seq<User>)
  {
    forall i, j :: 0 <= i < j < |users| ==> users[i].id != users[j].id && users[i].email != users[j].email
  }
}
