/**
 * `UserRegistrationForm` of users/forms.py, the HTML counterpart of the
 * registration serializer: its per-field cleaning, the `clean` hook that
 * compares the two passwords, and `save`.
 */
module UserForms {
  import opened Wrappers
  import opened UserModel
  import opened Store

  /** The submitted form fields; `None` is a field left out of the POST data. */
  datatype FormInput = FormInput(
    email: Option<string>,
    username: Option<string>,
    firstName: Option<string>,
    lastName: Option<string>,
    birthDate: Option<Date>,
    password: Option<string>,
    passwordConfirm: Option<string>)

  /** A missing value or the empty string, which a required field refuses. */
  predicate Blank(v: Option<string>) { v.None? || v.value == "" }

  /**
   * The `email` field: required, at most 254 characters, an email address,
   * not taken (`clean_email`), and, once the user model's own `clean` has
   * normalized it, not taken in normalized form (the model's unique check).
   */
  predicate EmailRejected(users: map<UserId, User>, v: Option<string>, checks: FieldChecks) {
    || Blank(v) || |v.value| > EmailMaxLength || !checks.isEmail(v.value)
    || EmailTaken(users, v.value) || EmailTaken(users, NormalizeEmail(v.value))
  }

  /** The `username` field: required, at most 150 characters, allowed characters, not taken (`clean_username`). */
  predicate UsernameRejected(users: map<UserId, User>, v: Option<string>, checks: FieldChecks) {
    Blank(v) || |v.value| > UsernameMaxLength || !checks.usernameCharsOk(v.value) || UsernameTaken(users, v.value)
  }

  /** The optional name fields: at most 150 characters. */
  predicate NameRejected(v: Option<string>) { v.Some? && |v.value| > NameMaxLength }

  /** The `password` field: required, and accepted by `validate_password`. */
  predicate PasswordRejected(v: Option<string>, checks: FieldChecks) {
    Blank(v) || !checks.strongPassword(v.value)
  }

  /**
   * `clean`: `password_confirm` gets the mismatch error only when both
   * password fields cleaned to non-empty values and those differ.
   */
  predicate Mismatch(input: FormInput, checks: FieldChecks) {
    !PasswordRejected(input.password, checks) && !Blank(input.passwordConfirm) &&
    input.password.value != input.passwordConfirm.value
  }

  /** Whether cleaning leaves an error on field `f`; `clean` adds the mismatch to the confirmation. */
  predicate Rejected(users: map<UserId, User>, input: FormInput, checks: FieldChecks, f: Field) {
    match f
    case Email => EmailRejected(users, input.email, checks)
    case Username => UsernameRejected(users, input.username, checks)
    case FirstName => NameRejected(input.firstName)
    case LastName => NameRejected(input.lastName)
    case Password => PasswordRejected(input.password, checks)
    case PasswordConfirm => Blank(input.passwordConfirm) || Mismatch(input, checks)
  }

  /** The errors of a bound form: every field is cleaned, then `clean` always runs. */
  function FormErrors(users: map<UserId, User>, input: FormInput, checks: FieldChecks): (errs: set<Field>)
    ensures Email in errs <==> EmailRejected(users, input.email, checks)
    ensures Username in errs <==> UsernameRejected(users, input.username, checks)
    ensures FirstName in errs <==> NameRejected(input.firstName)
    ensures LastName in errs <==> NameRejected(input.lastName)
    ensures Password in errs <==> PasswordRejected(input.password, checks)
    ensures PasswordConfirm in errs <==> Blank(input.passwordConfirm) || Mismatch(input, checks)
  {
    set f | f in {Email, Username, FirstName, LastName, Password, PasswordConfirm} && Rejected(users, input, checks, f)
  }

  /**
   * Unlike the serializer, the form reports a password mismatch even when
   * other fields are invalid; with a missing or rejected password it never
   * does.
   */
  lemma MismatchReportedWithOtherErrors(users: map<UserId, User>, input: FormInput, checks: FieldChecks)
    ensures Mismatch(input, checks) ==> PasswordConfirm in FormErrors(users, input, checks)
    ensures PasswordRejected(input.password, checks) ==>
      (PasswordConfirm in FormErrors(users, input, checks) <==> Blank(input.passwordConfirm))
    ensures FormErrors(users, input, checks) == {} ==>
      input.password.Some? && input.password == input.passwordConfirm
  {
  }

  /** A valid form's email and username are free in the table, raw and normalized. */
  lemma ValidFormFieldsFree(users: map<UserId, User>, input: FormInput, checks: FieldChecks)
    requires FormErrors(users, input, checks) == {}
    ensures input.email.Some? && input.username.Some?
    ensures !EmailTaken(users, input.email.value) && !EmailTaken(users, NormalizeEmail(input.email.value))
    ensures !UsernameTaken(users, input.username.value)
    ensures checks.strongPassword(input.password.value)
  {
  }

  /** What `save` returns: refused, or the user and, when committed, its new id. */
  datatype SaveResult = NotValid | Saved(user: User, id: Option<UserId>)

  /**
   * The instance a valid form builds: the declared fields (email in the
   * form the model's `clean` normalized), with `set_password` applied and
   * the model defaults elsewhere.
   */
  function FormUser(input: FormInput, hash: Hasher, now: Timestamp): (u: User)
    requires input.email.Some? && input.username.Some? && input.password.Some?
    ensures u.email == NormalizeEmail(input.email.value) && u.username == input.username.value
    ensures u.password == Hashed(hash(input.password.value))
    ensures u.firstName == (if input.firstName.Some? then input.firstName.value else "")
    ensures u.lastName == (if input.lastName.Some? then input.lastName.value else "")
    ensures u.isActive && !u.isStaff && !u.isSuperuser && u.lastLogin.None? && u.avatar.None?
    ensures u.birthDate == input.birthDate && u.dateJoined == now
  {
    User(NormalizeEmail(input.email.value), input.username.value, Hashed(hash(input.password.value)),
         if input.firstName.Some? then input.firstName.value else "",
         if input.lastName.Some? then input.lastName.value else "",
         input.birthDate, None, true, false, false, now, None)
  }

  /**
   * `save(commit)`: a form with errors is refused and nothing changes; a
   * valid one yields the user with the hashed password, which is inserted
   * only when `commit` is true. No token is ever created.
   */
  method Save(db: Db, input: FormInput, checks: FieldChecks, hash: Hasher, commit: bool, now: Timestamp)
    returns (r: SaveResult)
    requires db.Valid()
    modifies db
    ensures db.Valid()
    ensures db.tokens == old(db.tokens) && db.news == old(db.news) && db.nextNewsId == old(db.nextNewsId)
    ensures FormErrors(old(db.users), input, checks) != {} ==>
      r == NotValid && db.users == old(db.users) && db.nextUserId == old(db.nextUserId)
    ensures FormErrors(old(db.users), input, checks) == {} ==>
      && r.Saved? && r.user == FormUser(input, hash, now)
      && (commit ==> r.id == Some(old(db.nextUserId)) && db.users == old(db.users)[old(db.nextUserId) := r.user]
                     && db.nextUserId == old(db.nextUserId) + 1)
      && (!commit ==> r.id.None? && db.users == old(db.users) && db.nextUserId == old(db.nextUserId))
  {
    if FormErrors(db.users, input, checks) != {} {
      return NotValid;
    }
    ValidFormFieldsFree(db.users, input, checks);
    var user := User(NormalizeEmail(input.email.value), input.username.value, NoPassword,
                     if input.firstName.Some? then input.firstName.value else "",
                     if input.lastName.Some? then input.lastName.value else "",
                     input.birthDate, None, true, false, false, now, None);
    user := user.(password := Hashed(hash(input.password.value)));
    if commit {
      var id := db.InsertUser(user);
      r := Saved(user, Some(id));
    } else {
      r := Saved(user, None);
    }
  }
}
