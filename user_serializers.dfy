/**
 * The serializers of users/serializers.py: registration (field checks,
 * the password-confirmation check, and `create`, which hashes the password
 * and mints a token), the profile serializer's read-only fields and avatar
 * URL, and the login serializer's required fields.
 */
module UserSerializers {
  import opened Wrappers
  import opened UserModel
  import opened Media
  import opened Serialization
  import opened Store

  const RegistrationFields := {"id", "username", "email", "password", "password_confirm", "birth_date"}
  const RegistrationReadOnly := {"id"}

  const ProfileFields := {"id", "username", "email", "birth_date", "avatar", "avatar_url",
                          "date_joined", "last_login", "is_active"}
  /** `read_only_fields` plus the method field `avatar_url`. */
  const ProfileReadOnly := {"id", "date_joined", "last_login", "is_active", "avatar_url"}

  /**
   * A profile update cannot set `id`, `date_joined`, `last_login` or
   * `is_active`, nor fields the serializer does not declare (the password,
   * the staff flags); the editable profile fields pass through.
   */
  lemma ProfileReadOnlyFields<V>(data: map<string, V>)
    ensures var r := AcceptedInput(data, ProfileFields, ProfileReadOnly);
      && "id" !in r && "date_joined" !in r && "last_login" !in r && "is_active" !in r
      && "password" !in r && "is_staff" !in r && "is_superuser" !in r
      && ("username" in data ==> "username" in r && r["username"] == data["username"])
      && ("email" in data ==> "email" in r && r["email"] == data["email"])
      && ("avatar" in data ==> "avatar" in r)
  {
  }

  /** Registration input never sets `id`. */
  lemma RegistrationReadOnlyFields<V>(data: map<string, V>)
    ensures var r := AcceptedInput(data, RegistrationFields, RegistrationReadOnly);
      "id" !in r && "is_staff" !in r && ("password_confirm" in data ==> "password_confirm" in r)
  {
  }

  /** The declared fields of a registration payload; `None` is a field left out. */
  datatype RegistrationInput = RegistrationInput(
    username: Option<string>,
    email: Option<string>,
    password: Option<string>,
    passwordConfirm: Option<string>,
    birthDate: Option<Date>)

  /** `validated_data` of a valid registration. */
  datatype RegistrationData = RegistrationData(
    username: string,
    email: string,
    password: string,
    passwordConfirm: string,
    birthDate: Option<Date>)

  /** Left out, or the empty string (which a `CharField` refuses as blank). */
  predicate Blank(v: Option<string>) { v.None? || v.value == "" }

  /** The `username` field: required, at most 150 characters, allowed characters, not taken. */
  predicate UsernameRejected(users: map<UserId, User>, v: Option<string>, checks: FieldChecks) {
    Blank(v) || |v.value| > UsernameMaxLength || !checks.usernameCharsOk(v.value) || UsernameTaken(users, v.value)
  }

  /** The `email` field: required, at most 254 characters, an email address, not taken. */
  predicate EmailRejected(users: map<UserId, User>, v: Option<string>, checks: FieldChecks) {
    Blank(v) || |v.value| > EmailMaxLength || !checks.isEmail(v.value) || EmailTaken(users, v.value)
  }

  /** The `password` field: required and accepted by the password policy. */
  predicate PasswordRejected(v: Option<string>, checks: FieldChecks) {
    Blank(v) || !checks.strongPassword(v.value)
  }

  /** The per-field errors, collected over all fields. */
  function RegistrationFieldErrors(users: map<UserId, User>, input: RegistrationInput, checks: FieldChecks): set<Field>
  {
    (if UsernameRejected(users, input.username, checks) then {Username} else {}) +
    (if EmailRejected(users, input.email, checks) then {Email} else {}) +
    (if PasswordRejected(input.password, checks) then {Password} else {}) +
    (if Blank(input.passwordConfirm) then {PasswordConfirm} else {})
  }

  /**
   * `UserRegistrationSerializer.is_valid`: every field is checked first
   * (`validate_email` and `validate_username` reject values already in the
   * store); only when all fields pass does `validate` compare the two
   * passwords, failing on `password_confirm`.
   */
  function ValidateRegistration(users: map<UserId, User>, input: RegistrationInput, checks: FieldChecks)
    : (r: Result<RegistrationData, set<Field>>)
    ensures r.Err? ==> r.error != {}
    ensures r.Ok? <==> RegistrationFieldErrors(users, input, checks) == {} && input.password == input.passwordConfirm
    ensures RegistrationFieldErrors(users, input, checks) != {} ==> r == Err(RegistrationFieldErrors(users, input, checks))
    ensures input.email.None? || (input.email.Some? && EmailTaken(users, input.email.value)) ==> r.Err? && Email in r.error
    ensures input.username.None? || (input.username.Some? && UsernameTaken(users, input.username.value)) ==> r.Err? && Username in r.error
    ensures input.password != input.passwordConfirm ==> r.Err?
    ensures RegistrationFieldErrors(users, input, checks) == {} && input.password != input.passwordConfirm ==>
      r == Err({PasswordConfirm})
    ensures r.Ok? ==>
      && input == RegistrationInput(Some(r.value.username), Some(r.value.email), Some(r.value.password),
                                    Some(r.value.passwordConfirm), r.value.birthDate)
      && !EmailTaken(users, r.value.email) && !UsernameTaken(users, r.value.username)
      && checks.strongPassword(r.value.password) && r.value.password == r.value.passwordConfirm
  {
    var errs := RegistrationFieldErrors(users, input, checks);
    if errs != {} then Err(errs)
    else if input.password.value != input.passwordConfirm.value then Err({PasswordConfirm})
    else Ok(RegistrationData(input.username.value, input.email.value, input.password.value,
                             input.passwordConfirm.value, input.birthDate))
  }

  /**
   * The row a successful registration leaves: the declared fields, the
   * hash of the password (the confirmation is dropped), and the model
   * defaults for everything else.
   */
  function RegisteredUser(data: RegistrationData, hash: Hasher, now: Timestamp): (u: User)
    ensures u.email == data.email && u.username == data.username && u.birthDate == data.birthDate
    ensures u.password == Hashed(hash(data.password))
    ensures u.isActive && !u.isStaff && !u.isSuperuser && u.lastLogin.None? && u.dateJoined == now
  {
    User(data.email, data.username, Hashed(hash(data.password)), "", "", data.birthDate, None,
         true, false, false, now, None)
  }

  /**
   * `UserRegistrationSerializer.create`: the user row is inserted without a
   * password, `set_password` stores the hash and the row is saved, then one
   * token is created for the new user.
   */
  method CreateRegisteredUser(db: Db, data: RegistrationData, hash: Hasher, newKey: string, now: Timestamp)
    returns (id: UserId)
    requires db.Valid() && newKey !in db.tokens
    requires !EmailTaken(db.users, data.email) && !UsernameTaken(db.users, data.username)
    modifies db
    ensures db.Valid()
    ensures id == old(db.nextUserId) && id !in old(db.users)
    ensures db.users == old(db.users)[id := RegisteredUser(data, hash, now)]
    ensures db.tokens == old(db.tokens)[newKey := id]
    ensures db.news == old(db.news)
    ensures db.nextUserId == old(db.nextUserId) + 1 && db.nextNewsId == old(db.nextNewsId)
  {
    var password := data.password;
    var row := User(data.email, data.username, NoPassword, "", "", data.birthDate, None,
                    true, false, false, now, None);
    id := db.InsertUser(row);
    row := row.(password := Hashed(hash(password)));
    assert !ClashesWithOther(db.users, id, row) by {
      forall other | other in db.users && other != id
        ensures db.users[other].email != row.email && db.users[other].username != row.username
      {
        assert other in old(db.users);
      }
    }
    db.SaveUser(id, row);
    assert !HasToken(db.tokens, id);
    db.CreateToken(id, newKey);
  }

  /** `UserSerializer.get_avatar_url`. */
  function AvatarUrl(u: User, request: Option<Request>, build: UriBuilder): (r: Option<string>)
    ensures r.None? <==> !HasFile(u.avatar)
    ensures HasFile(u.avatar) && request.Some? ==> r == Some(build(request.value, FilePath(u.avatar.value)))
    ensures HasFile(u.avatar) && request.None? ==> r == Some(FilePath(u.avatar.value))
  {
    FileUrl(u.avatar, request, build)
  }

  /** The fields of a login payload. */
  datatype LoginInput = LoginInput(email: Option<string>, password: Option<string>)

  /** `UserLoginSerializer`: both fields required, `email` an email address. */
  function LoginFieldErrors(input: LoginInput, checks: FieldChecks): (errs: set<Field>)
    ensures errs <= {Email, Password}
    ensures Email in errs <==> Blank(input.email) || !checks.isEmail(input.email.value)
    ensures Password in errs <==> Blank(input.password)
  {
    (if Blank(input.email) || !checks.isEmail(input.email.value) then {Email} else {}) +
    (if Blank(input.password) then {Password} else {})
  }
}
