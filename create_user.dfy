/**
 * `Command.handle` of users/management/commands/create_user.py: resolve
 * the options and prompt answers, check the required values and the two
 * uniqueness conditions, create a plain user through the user manager and
 * fetch or create its token.
 *
 * As written, the manager call passes `phone_number`, which the user model
 * does not have, so the model constructor raises and the generic handler
 * reports it: `Run` never creates a user. `RunIntended` (and `Handle`) is
 * the command with that keyword dropped.
 */
module CreateUserCommand {
  import opened Wrappers
  import opened UserModel
  import opened Store
  import opened CommandInput

  datatype Options = Options(
    email: Option<string>,
    username: Option<string>,
    password: Option<string>,
    firstName: Option<string>,
    lastName: Option<string>,
    phone: Option<string>,
    noinput: bool)

  /** What would be typed at each prompt, were it shown. */
  datatype Answers = Answers(
    email: string,
    username: string,
    password: string,
    passwordConfirm: string,
    firstName: string,
    lastName: string,
    phone: string)

  /** The values once prompting and the required check are done. */
  datatype Resolved = Resolved(
    email: string,
    username: string,
    password: string,
    firstName: Option<string>,
    lastName: Option<string>,
    phone: Option<string>)

  /** The message the command ends with. */
  datatype Outcome =
    | PasswordMismatch
    | MissingRequired
    | EmailExists
    | UsernameExists
    | Created(id: UserId, printedKey: Option<string>)
    | IntegrityFailure
    | UnexpectedError

  /** The password is prompted for, with a confirmation, only when no option gave one. */
  predicate PromptsPassword(opts: Options) { !opts.noinput && Falsy(opts.password) }

  /** An optional name: the option, or the typed answer with an empty answer meaning none. */
  function OptionalValue(option: Option<string>, answer: string, noinput: bool): Option<string> {
    if !noinput && Falsy(option) then OrNone(answer) else option
  }

  /**
   * Prompting and the required check, which touch no table: a mismatched
   * confirmation aborts first, then a missing email, username or password.
   */
  function Gather(opts: Options, answers: Answers): (r: Result<Resolved, Outcome>)
    ensures r.Err? ==> r.error == PasswordMismatch || r.error == MissingRequired
    ensures PromptsPassword(opts) && answers.password != answers.passwordConfirm ==> r == Err(PasswordMismatch)
    ensures r.Ok? ==>
      && Some(r.value.email) == Prompted(opts.email, answers.email, opts.noinput)
      && Some(r.value.username) == Prompted(opts.username, answers.username, opts.noinput)
      && Some(r.value.password) == Prompted(opts.password, answers.password, opts.noinput)
      && r.value.email != "" && r.value.username != "" && r.value.password != ""
    ensures r == Err(MissingRequired) <==>
      !(PromptsPassword(opts) && answers.password != answers.passwordConfirm) &&
      (Falsy(Prompted(opts.email, answers.email, opts.noinput)) ||
       Falsy(Prompted(opts.username, answers.username, opts.noinput)) ||
       Falsy(Prompted(opts.password, answers.password, opts.noinput)))
  {
    var email := Prompted(opts.email, answers.email, opts.noinput);
    var username := Prompted(opts.username, answers.username, opts.noinput);
    var password := Prompted(opts.password, answers.password, opts.noinput);
    if PromptsPassword(opts) && answers.password != answers.passwordConfirm then Err(PasswordMismatch)
    else if Falsy(email) || Falsy(username) || Falsy(password) then Err(MissingRequired)
    else Ok(Resolved(email.value, username.value, password.value,
                     OptionalValue(opts.firstName, answers.firstName, opts.noinput),
                     OptionalValue(opts.lastName, answers.lastName, opts.noinput),
                     OptionalValue(opts.phone, answers.phone, opts.noinput)))
  }

  /**
   * The command as written: after the checks the manager call always raises
   * (unknown `phone_number` keyword), which is reported as an unexpected
   * error, so no run changes the tables or creates a user.
   */
  function Run(t: AccountTables, opts: Options, answers: Answers): (r: (AccountTables, Outcome))
    ensures r.0 == t
    ensures !r.1.Created? && r.1 != IntegrityFailure
    ensures Gather(opts, answers).Err? ==> r.1 == Gather(opts, answers).error
    ensures Gather(opts, answers).Ok? && EmailTaken(t.users, Gather(opts, answers).value.email) ==> r.1 == EmailExists
    ensures (Gather(opts, answers).Ok? && !EmailTaken(t.users, Gather(opts, answers).value.email) &&
             UsernameTaken(t.users, Gather(opts, answers).value.username)) ==> r.1 == UsernameExists
    ensures (Gather(opts, answers).Ok? && !EmailTaken(t.users, Gather(opts, answers).value.email) &&
             !UsernameTaken(t.users, Gather(opts, answers).value.username)) ==> r.1 == UnexpectedError
  {
    match Gather(opts, answers)
    case Err(o) => (t, o)
    case Ok(q) =>
      if EmailTaken(t.users, q.email) then (t, EmailExists)
      else if UsernameTaken(t.users, q.username) then (t, UsernameExists)
      else (t, UnexpectedError)
  }

  /** The row `create_user` builds: normalized email, hashed password, names or `''`, a plain active user. */
  function NewUser(q: Resolved, hash: Hasher, now: Timestamp): (u: User)
    ensures u.email == NormalizeEmail(q.email) && u.username == q.username
    ensures u.password == Hashed(hash(q.password))
    ensures u.firstName == OrEmpty(q.firstName) && u.lastName == OrEmpty(q.lastName)
    ensures u.isActive && !u.isStaff && !u.isSuperuser && u.lastLogin.None? && u.dateJoined == now
  {
    User(NormalizeEmail(q.email), q.username, Hashed(hash(q.password)), OrEmpty(q.firstName), OrEmpty(q.lastName),
         None, None, true, false, false, now, None)
  }

  /**
   * `create_user` past the existence checks: the new row is inserted under
   * the next id unless its normalized address or its username is taken,
   * which fails a unique constraint with nothing changed; the new user then gets a new
   * token, whose key is printed.
   */
  function CreateAccount(t: AccountTables, q: Resolved, hash: Hasher, newKey: string, now: Timestamp)
    : (r: (AccountTables, Outcome))
    requires ValidAccounts(t) && newKey !in t.tokens
    ensures ValidAccounts(r.0)
    ensures r.1 == IntegrityFailure <==> EmailTaken(t.users, NormalizeEmail(q.email)) || UsernameTaken(t.users, q.username)
    ensures r.1 == IntegrityFailure ==> r.0 == t
    ensures r.1 != IntegrityFailure ==>
      && r.1 == Created(t.nextUserId, Some(newKey))
      && r.0 == AccountTables(t.users[t.nextUserId := NewUser(q, hash, now)], t.tokens[newKey := t.nextUserId],
                              t.nextUserId + 1)
  {
    var u := NewUser(q, hash, now);
    if EmailTaken(t.users, u.email) || UsernameTaken(t.users, u.username) then (t, IntegrityFailure)
    else
      var id := t.nextUserId;
      var t1 := AccountTables(t.users[id := u], t.tokens, id + 1);
      InsertKeepsValid(t, u);
      assert !HasToken(t1.tokens, id);
      var g := GetOrCreate(t1.tokens, id, newKey);
      GrantKeepsValid(t1, id, newKey);
      (t1.(tokens := g.tokens), Created(id, if g.created then Some(g.key) else None))
  }

  /** The existence checks on the values as given, email first, then the creation. */
  function CheckThenCreate(t: AccountTables, q: Resolved, hash: Hasher, newKey: string, now: Timestamp)
    : (r: (AccountTables, Outcome))
    requires ValidAccounts(t) && newKey !in t.tokens
    ensures ValidAccounts(r.0)
    ensures !r.1.Created? ==> r.0 == t
    ensures r.1 == EmailExists <==> EmailTaken(t.users, q.email)
    ensures r.1 == UsernameExists <==> !EmailTaken(t.users, q.email) && UsernameTaken(t.users, q.username)
    ensures r.1 in {EmailExists, UsernameExists, IntegrityFailure} || r.1.Created?
    ensures r.1.Created? ==>
      && r.1.id == t.nextUserId && r.1.printedKey == Some(newKey)
      && r.0 == AccountTables(t.users[t.nextUserId := NewUser(q, hash, now)], t.tokens[newKey := t.nextUserId],
                              t.nextUserId + 1)
  {
    if EmailTaken(t.users, q.email) then (t, EmailExists)
    else if UsernameTaken(t.users, q.username) then (t, UsernameExists)
    else CreateAccount(t, q, hash, newKey, now)
  }

  /**
   * The command without the `phone_number` keyword: the existence checks
   * use the address as given, the manager stores it normalized, and a
   * normalized address that another user already has fails the unique
   * constraint. A new user then gets its token, whose key is printed.
   */
  function RunIntended(t: AccountTables, opts: Options, answers: Answers, hash: Hasher, newKey: string, now: Timestamp)
    : (r: (AccountTables, Outcome))
    requires ValidAccounts(t) && newKey !in t.tokens
    ensures ValidAccounts(r.0)
    ensures !r.1.Created? ==> r.0 == t
    ensures r.1 != UnexpectedError
    ensures Gather(opts, answers).Err? ==> r.1 == Gather(opts, answers).error
    ensures r.1 == EmailExists <==> Gather(opts, answers).Ok? && EmailTaken(t.users, Gather(opts, answers).value.email)
    ensures r.1 == UsernameExists <==>
      Gather(opts, answers).Ok? && !EmailTaken(t.users, Gather(opts, answers).value.email) &&
      UsernameTaken(t.users, Gather(opts, answers).value.username)
    ensures r.1.Created? ==>
      var q := Gather(opts, answers).value;
      && Gather(opts, answers).Ok? && r.1.id == t.nextUserId && r.1.printedKey == Some(newKey)
      && r.0 == AccountTables(t.users[t.nextUserId := NewUser(q, hash, now)], t.tokens[newKey := t.nextUserId],
                              t.nextUserId + 1)
  {
    match Gather(opts, answers)
    case Err(o) => (t, o)
    case Ok(q) => CheckThenCreate(t, q, hash, newKey, now)
  }

  /**
   * Every account the existence checks let through is created exactly when
   * its normalized address is free too, and then with empty names for the
   * names not given.
   */
  lemma IntendedCreatesFreshAccounts(t: AccountTables, opts: Options, answers: Answers, hash: Hasher,
                                     newKey: string, now: Timestamp)
    requires ValidAccounts(t) && newKey !in t.tokens
    requires Gather(opts, answers).Ok?
    requires !EmailTaken(t.users, Gather(opts, answers).value.email)
    requires !UsernameTaken(t.users, Gather(opts, answers).value.username)
    ensures var q := Gather(opts, answers).value;
            var r := RunIntended(t, opts, answers, hash, newKey, now);
            (r.1.Created? <==> !EmailTaken(t.users, NormalizeEmail(q.email))) &&
            (r.1.Created? ==> r.0.users[r.1.id].firstName == OrEmpty(q.firstName) &&
                              r.0.users[r.1.id].lastName == OrEmpty(q.lastName)) &&
            (!r.1.Created? ==> r.1 == IntegrityFailure)
  {
  }

  /** With an empty table and every value given, the command as written still creates no one. */
  lemma AsWrittenRejectsFreshAccount(hash: Hasher, newKey: string, now: Timestamp)
    ensures var t := AccountTables(map[], map[], 0);
            var opts := Options(Some("reader@example.com"), Some("reader"), Some("secret-pass"), None, None, None, true);
            var answers := Answers("", "", "", "", "", "", "");
            Run(t, opts, answers).1 == UnexpectedError &&
            RunIntended(t, opts, answers, hash, newKey, now).1 == Created(0, Some(newKey))
  {
    var t := AccountTables(map[], map[], 0);
    var opts := Options(Some("reader@example.com"), Some("reader"), Some("secret-pass"), None, None, None, true);
    var answers := Answers("", "", "", "", "", "", "");
    var q := Gather(opts, answers).value;
    assert q.email == "reader@example.com" && q.username == "reader";
    assert !EmailTaken(t.users, q.email) && !UsernameTaken(t.users, q.username);
    assert !EmailTaken(t.users, NormalizeEmail(q.email));
    assert RunIntended(t, opts, answers, hash, newKey, now) == CreateAccount(t, q, hash, newKey, now);
  }

  /** The prompting part of `handle`: options first, prompts for what they leave missing or empty. */
  method ReadValues(opts: Options, answers: Answers) returns (r: Result<Resolved, Outcome>)
    ensures r == Gather(opts, answers)
  {
    var email := opts.email;
    var username := opts.username;
    var password := opts.password;
    var firstName := opts.firstName;
    var lastName := opts.lastName;
    var phone := opts.phone;
    if !opts.noinput {
      if Falsy(email) {
        email := Some(answers.email);
      }
      if Falsy(username) {
        username := Some(answers.username);
      }
      if Falsy(password) {
        password := Some(answers.password);
        if answers.password != answers.passwordConfirm {
          return Err(PasswordMismatch);
        }
      }
      if Falsy(firstName) {
        firstName := OrNone(answers.firstName);
      }
      if Falsy(lastName) {
        lastName := OrNone(answers.lastName);
      }
      if Falsy(phone) {
        phone := OrNone(answers.phone);
      }
    }
    if Falsy(email) || Falsy(username) || Falsy(password) {
      return Err(MissingRequired);
    }
    r := Ok(Resolved(email.value, username.value, password.value, firstName, lastName, phone));
  }

  /**
   * `handle`, with option values and prompt answers as inputs and the final
   * message as the outcome; exceptions never escape it.
   */
  method Handle(db: Db, opts: Options, answers: Answers, hash: Hasher, newKey: string, now: Timestamp)
    returns (outcome: Outcome)
    requires db.Valid() && newKey !in db.tokens
    modifies db
    ensures db.Valid()
    ensures (db.Accounts(), outcome) == RunIntended(old(db.Accounts()), opts, answers, hash, newKey, now)
    ensures db.news == old(db.news) && db.nextNewsId == old(db.nextNewsId)
  {
    var values := ReadValues(opts, answers);
    if values.Err? {
      return values.error;
    }
    var q := values.value;
    assert RunIntended(db.Accounts(), opts, answers, hash, newKey, now) == CheckThenCreate(db.Accounts(), q, hash, newKey, now);
    if EmailTaken(db.users, q.email) {
      return EmailExists;
    }
    if UsernameTaken(db.users, q.username) {
      return UsernameExists;
    }
    ghost var expected := CreateAccount(db.Accounts(), q, hash, newKey, now);
    var u := NewUser(q, hash, now);
    if EmailTaken(db.users, u.email) {
      return IntegrityFailure;
    }
    var id := db.InsertUser(u);
    var key, created := db.GetOrCreateToken(id, newKey);
    outcome := Created(id, if created then Some(key) else None);
    assert (db.Accounts(), outcome) == expected;
  }
}
