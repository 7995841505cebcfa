/**
 * The `CustomUser` record of users/models.py (an `AbstractUser` with a
 * unique email as its login key), the actor a request carries, and the
 * framework validators that are left opaque.
 */
module UserModel {
  import opened Wrappers
  import Ordering

  /** A user's primary key. The record itself does not carry it. */
  type UserId = nat

  /** An instant; a larger value is later. */
  type Timestamp = int

  datatype Date = Date(year: int, month: int, day: int)

  /** The password hasher behind `set_password` and `make_password`. */
  type Hasher = string -> string

  /**
   * The stored password column. `NoPassword` is what `objects.create` leaves
   * before `set_password` runs; the raw password has no place in it.
   */
  datatype Credential = NoPassword | Hashed(digest: string)

  datatype User = User(
    email: string,
    username: string,
    password: Credential,
    firstName: string,
    lastName: string,
    birthDate: Option<Date>,
    avatar: Option<string>,
    isActive: bool,
    isStaff: bool,
    isSuperuser: bool,
    dateJoined: Timestamp,
    lastLogin: Option<Timestamp>)

  /** `USERNAME_FIELD`: the field that identifies a user at login. */
  const LoginField := "email"
  /** `REQUIRED_FIELDS`. */
  const RequiredFields := ["username"]
  /** Length limits of the inherited and declared model fields. */
  const EmailMaxLength := 254
  const UsernameMaxLength := 150
  const NameMaxLength := 150

  /** The fields that registration and the registration form report errors on. */
  datatype Field = Email | Username | Password | PasswordConfirm | FirstName | LastName

  /**
   * Validators of the framework that this model does not interpret: email
   * syntax, the username character set, and the password-strength policy
   * (`validate_password` with the configured validators).
   */
  datatype FieldChecks = FieldChecks(
    isEmail: string -> bool,
    usernameCharsOk: string -> bool,
    strongPassword: string -> bool)

  /** The authenticated user of a request, or the anonymous user. */
  datatype Actor = Anonymous | Member(id: UserId, user: User)
  {
    predicate IsAuthenticated() { Member? }
    predicate IsStaff() { Member? && user.isStaff }
  }

  predicate EmailTaken(users: map<UserId, User>, email: string) {
    exists id :: id in users && users[id].email == email
  }

  predicate UsernameTaken(users: map<UserId, User>, username: string) {
    exists id :: id in users && users[id].username == username
  }

  /** The unique constraint on `email`. */
  predicate UniqueEmails(users: map<UserId, User>) {
    forall a, b :: a in users && b in users && users[a].email == users[b].email ==> a == b
  }

  /** The unique constraint on the inherited `username`. */
  predicate UniqueUsernames(users: map<UserId, User>) {
    forall a, b :: a in users && b in users && users[a].username == users[b].username ==> a == b
  }

  /** Saving `u` under `id` would break a unique constraint against another row. */
  predicate ClashesWithOther(users: map<UserId, User>, id: UserId, u: User) {
    exists other :: other in users && other != id &&
      (users[other].email == u.email || users[other].username == u.username)
  }

  /**
   * The lookup by login key, `filter(email=...).first()`: with unique emails
   * there is at most one match, and the result is that user.
   */
  function FindByEmail(users: map<UserId, User>, email: string): (r: Option<UserId>)
    requires UniqueEmails(users)
    ensures r.Some? <==> EmailTaken(users, email)
    ensures r.Some? ==> r.value in users && users[r.value].email == email
    ensures forall id :: id in users && users[id].email == email ==> r == Some(id)
  {
    if EmailTaken(users, email) then
      var id :| id in users && users[id].email == email;
      Some(id)
    else
      None
  }

  /** `__str__`: "email (username)". */
  function UserText(u: User): (s: string)
    ensures |s| == |u.email| + |u.username| + 3
    ensures s[..|u.email|] == u.email
    ensures s[|u.email|..|u.email| + 2] == " ("
    ensures s[|u.email| + 2..|s| - 1] == u.username
    ensures s[|s| - 1] == ')'
  {
    u.email + " (" + u.username + ")"
  }

  /** The key of `ordering = ["-date_joined"]`. */
  function DateJoined(u: User): int { u.dateJoined }

  /** `CustomUser.Meta.ordering = ["-date_joined"]`: newest members first, same rows. */
  function UsersInOrder(users: seq<User>): (r: seq<User>)
    ensures Ordering.NewestFirst(r, DateJoined)
    ensures multiset(r) == multiset(users)
  {
    Ordering.SortNewestFirst(users, DateJoined)
  }

  /**
   * The ASCII characters Python's `str.isspace` accepts, which `str.strip`
   * removes: space, tab, line feed, vertical tab, form feed, carriage
   * return and the four separators U+001C to U+001F.
   */
  predicate IsSpace(c: char) {
    c == ' ' || c == '\t' || c == '\n' || c == '\r' || c as int == 11 || c as int == 12 || 28 <= c as int <= 31
  }

  /** Every character of `s` is whitespace. */
  predicate AllSpace(s: string) {
    forall i :: 0 <= i < |s| ==> IsSpace(s[i])
  }

  /** The text without its leading whitespace: exactly a run of whitespace is cut off. */
  function StripLeft(s: string): (r: string)
    ensures |r| <= |s| && r == s[|s| - |r|..]
    ensures r == [] || !IsSpace(r[0])
    ensures AllSpace(s[..|s| - |r|])
  {
    if s != [] && IsSpace(s[0]) then StripLeft(s[1..]) else s
  }

  /** The text without its trailing whitespace: exactly a run of whitespace is cut off. */
  function StripRight(s: string): (r: string)
    ensures |r| <= |s| && r == s[..|r|]
    ensures r == [] || !IsSpace(r[|r| - 1])
    ensures AllSpace(s[|r|..])
  {
    if s != [] && IsSpace(s[|s| - 1]) then StripRight(s[..|s| - 1]) else s
  }

  function Strip(s: string): string {
    StripRight(StripLeft(s))
  }

  function LowerChar(c: char): char {
    if 'A' <= c <= 'Z' then (c as int - 'A' as int + 'a' as int) as char else c
  }

  function Lower(s: string): (r: string)
    ensures |r| == |s|
    ensures forall i :: 0 <= i < |s| ==> r[i] == LowerChar(s[i])
  {
    if s == [] then [] else [LowerChar(s[0])] + Lower(s[1..])
  }

  /** The index of the last '@' in `s`, if any. */
  function LastAt(s: string): (r: Option<nat>)
    ensures r.Some? ==> r.value < |s| && s[r.value] == '@' && '@' !in s[r.value + 1..]
    ensures r.None? ==> '@' !in s
  {
    if s == [] then None
    else if s[|s| - 1] == '@' then Some(|s| - 1)
    else
      var r := LastAt(s[..|s| - 1]);
      assert s == s[..|s| - 1] + [s[|s| - 1]];
      r
  }

  /**
   * `BaseUserManager.normalize_email`: when the stripped address has an '@',
   * the part after the last '@' is lower-cased; otherwise the address is
   * kept as given.
   */
  function NormalizeEmail(email: string): (r: string)
    ensures LastAt(Strip(email)).None? ==> r == email
    ensures LastAt(Strip(email)).Some? ==>
      var s, i := Strip(email), LastAt(Strip(email)).value;
      |r| == |s| && r[..i + 1] == s[..i + 1] &&
      forall j :: i < j < |s| ==> r[j] == LowerChar(s[j])
  {
    var s := Strip(email);
    match LastAt(s)
    case None => email
    case Some(i) =>
      LowerAfter(s, i);
      s[..i] + "@" + Lower(s[i + 1..])
  }

  /** Splicing the lower-cased domain back after the '@' at `i`. */
  lemma LowerAfter(s: string, i: nat)
    requires i < |s| && s[i] == '@'
    ensures var r := s[..i] + "@" + Lower(s[i + 1..]);
      |r| == |s| && r[..i + 1] == s[..i + 1] &&
      forall j :: i < j < |s| ==> r[j] == LowerChar(s[j])
  {
    var d := s[i + 1..];
    var low := Lower(d);
    var r := s[..i] + "@" + low;
    assert r[..i + 1] == s[..i + 1];
    forall j | i < j < |s|
      ensures r[j] == LowerChar(s[j])
    {
      assert r[j] == low[j - i - 1];
      assert d[j - i - 1] == s[j];
    }
  }
}
