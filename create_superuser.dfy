/**
 * `Command.handle` of users/management/commands/create_superuser.py: an
 * upsert that promotes the user holding the given email (flags, password,
 * username) or creates a new superuser, followed by a token
 * get-or-create.
 */
module CreateSuperuserCommand {
  import opened Wrappers
  import opened UserModel
  import opened Store
  import opened CommandInput

  datatype Options = Options(email: Option<string>, username: Option<string>, password: Option<string>, noinput: bool)

  /** What would be typed at each prompt, were it shown. */
  datatype Answers = Answers(email: string, username: string, password: string, passwordConfirm: string)

  datatype Resolved = Resolved(email: string, username: string, password: string)

  /** The message the command ends with. */
  datatype Outcome =
    | PasswordMismatch
    | MissingRequired
    | Promoted(id: UserId, key: string, tokenCreated: bool)
    | CreatedSuperuser(id: UserId, key: string, tokenCreated: bool)
    | IntegrityFailure

  predicate PromptsPassword(opts: Options) { !opts.noinput && Falsy(opts.password) }

  /** Prompting and the required check, which touch no table. */
  function Gather(opts: Options, answers: Answers): (r: Result<Resolved, Outcome>)
    ensures r.Err? ==> r.error == PasswordMismatch || r.error == MissingRequired
    ensures PromptsPassword(opts) && answers.password != answers.passwordConfirm ==> r == Err(PasswordMismatch)
    ensures r.Ok? ==>
      && Some(r.value.email) == Prompted(opts.email, answers.email, opts.noinput)
      && Some(r.value.username) == Prompted(opts.username, answers.username, opts.noinput)
      && Some(r.value.password) == Prompted(opts.password, answers.password, opts.noinput)
      && r.value.email != "" && r.value.username != "" && r.value.password != ""
    ensures r == Err(MissingRequired) <==>
      !(PromptsPassword(opts) && answers.password != answers.passwordConfirm) &&
      (Falsy(Prompted(opts.email, answers.email, opts.noinput)) ||
       Falsy(Prompted(opts.username, answers.username, opts.noinput)) ||
       Falsy(Prompted(opts.password, answers.password, opts.noinput)))
  {
    var email := Prompted(opts.email, answers.email, opts.noinput);
    var username := Prompted(opts.username, answers.username, opts.noinput);
    var password := Prompted(opts.password, answers.password, opts.noinput);
    if PromptsPassword(opts) && answers.password != answers.passwordConfirm then Err(PasswordMismatch)
    else if Falsy(email) || Falsy(username) || Falsy(password) then Err(MissingRequired)
    else Ok(Resolved(email.value, username.value, password.value))
  }

  /** The existing row after promotion: both flags set, password reset, username replaced when it differs. */
  function PromotedUser(u: User, q: Resolved, hash: Hasher): (p: User)
    ensures p.isSuperuser && p.isStaff && p.password == Hashed(hash(q.password))
    ensures p.username == (if q.username != "" then q.username else u.username)
    ensures p.email == u.email && p.isActive == u.isActive && p.dateJoined == u.dateJoined
    ensures p.firstName == u.firstName && p.lastName == u.lastName && p.lastLogin == u.lastLogin
    ensures p.birthDate == u.birthDate && p.avatar == u.avatar
  {
    var p := u.(isSuperuser := true, isStaff := true, password := Hashed(hash(q.password)));
    if q.username != "" && p.username != q.username then p.(username := q.username) else p
  }

  /** The row `create_superuser` builds: normalized email, hashed password, both flags set. */
  function NewSuperuser(q: Resolved, hash: Hasher, now: Timestamp): (u: User)
    ensures u.email == NormalizeEmail(q.email) && u.username == q.username
    ensures u.password == Hashed(hash(q.password))
    ensures u.isActive && u.isStaff && u.isSuperuser && u.lastLogin.None? && u.dateJoined == now
  {
    User(NormalizeEmail(q.email), q.username, Hashed(hash(q.password)), "", "", None, None, true, true, true, now, None)
  }

  /**
   * The promotion branch: the found row is promoted and saved, unless the
   * new username belongs to another row, in which case the save fails and
   * nothing changes; then the token get-or-create.
   */
  function Promote(t: AccountTables, id: UserId, q: Resolved, hash: Hasher, newKey: string): (r: (AccountTables, Outcome))
    requires ValidAccounts(t) && newKey !in t.tokens && id in t.users
    ensures ValidAccounts(r.0)
    ensures r.1 == IntegrityFailure <==> ClashesWithOther(t.users, id, PromotedUser(t.users[id], q, hash))
    ensures r.1 == IntegrityFailure ==> r.0 == t
    ensures r.1 != IntegrityFailure ==>
      && r.1 == Promoted(id, GetOrCreate(t.tokens, id, newKey).key, GetOrCreate(t.tokens, id, newKey).created)
      && r.0 == AccountTables(t.users[id := PromotedUser(t.users[id], q, hash)],
                              GetOrCreate(t.tokens, id, newKey).tokens, t.nextUserId)
  {
    var u := PromotedUser(t.users[id], q, hash);
    if ClashesWithOther(t.users, id, u) then (t, IntegrityFailure)
    else
      UpdateKeepsValid(t, id, u);
      var t1 := t.(users := t.users[id := u]);
      var g := GetOrCreate(t1.tokens, id, newKey);
      GrantKeepsValid(t1, id, newKey);
      (t1.(tokens := g.tokens), Promoted(id, g.key, g.created))
  }

  /**
   * The creation branch: the new superuser is inserted under the next id,
   * unless its normalized email or its username is already taken, in which
   * case the insert fails and nothing changes; then it gets a new token.
   */
  function CreateNew(t: AccountTables, q: Resolved, hash: Hasher, newKey: string, now: Timestamp): (r: (AccountTables, Outcome))
    requires ValidAccounts(t) && newKey !in t.tokens
    ensures ValidAccounts(r.0)
    ensures r.1 == IntegrityFailure <==>
      EmailTaken(t.users, NormalizeEmail(q.email)) || UsernameTaken(t.users, q.username)
    ensures r.1 == IntegrityFailure ==> r.0 == t
    ensures r.1 != IntegrityFailure ==>
      && r.1 == CreatedSuperuser(t.nextUserId, newKey, true)
      && r.0 == AccountTables(t.users[t.nextUserId := NewSuperuser(q, hash, now)],
                              t.tokens[newKey := t.nextUserId], t.nextUserId + 1)
  {
    var u := NewSuperuser(q, hash, now);
    if EmailTaken(t.users, u.email) || UsernameTaken(t.users, u.username) then (t, IntegrityFailure)
    else
      var id := t.nextUserId;
      InsertKeepsValid(t, u);
      var t1 := AccountTables(t.users[id := u], t.tokens, id + 1);
      assert !HasToken(t1.tokens, id);
      var g := GetOrCreate(t1.tokens, id, newKey);
      GrantKeepsValid(t1, id, newKey);
      (t1.(tokens := g.tokens), CreatedSuperuser(id, g.key, g.created))
  }

  /**
   * The command on the account tables. The lookup uses the address as
   * given; a save or insert that would break a unique constraint fails
   * with nothing changed.
   */
  function Run(t: AccountTables, opts: Options, answers: Answers, hash: Hasher, newKey: string, now: Timestamp)
    : (r: (AccountTables, Outcome))
    requires ValidAccounts(t) && newKey !in t.tokens
    ensures ValidAccounts(r.0)
    ensures Gather(opts, answers).Err? ==> r == (t, Gather(opts, answers).error)
    ensures r.1 == IntegrityFailure ==> r.0 == t
    ensures Gather(opts, answers).Ok? && FindByEmail(t.users, Gather(opts, answers).value.email).Some? ==>
      var q, id := Gather(opts, answers).value, FindByEmail(t.users, Gather(opts, answers).value.email).value;
      && (r.1 == IntegrityFailure <==> ClashesWithOther(t.users, id, PromotedUser(t.users[id], q, hash)))
      && (r.1 != IntegrityFailure ==> r.1.Promoted? && r.1.id == id)
    ensures Gather(opts, answers).Ok? && FindByEmail(t.users, Gather(opts, answers).value.email).None? ==>
      var q := Gather(opts, answers).value;
      && (r.1 == IntegrityFailure <==> EmailTaken(t.users, NormalizeEmail(q.email)) || UsernameTaken(t.users, q.username))
      && (r.1 != IntegrityFailure ==> r.1 == CreatedSuperuser(t.nextUserId, newKey, true))
  {
    match Gather(opts, answers)
    case Err(o) => (t, o)
    case Ok(q) =>
      match FindByEmail(t.users, q.email)
      case Some(id) => Promote(t, id, q, hash, newKey)
      case None => CreateNew(t, q, hash, newKey, now)
  }

  /** A promoting run: the row found by the given address is promoted and its token got or created. */
  lemma RunPromotedOutcome(t: AccountTables, opts: Options, answers: Answers, hash: Hasher, newKey: string, now: Timestamp)
    requires ValidAccounts(t) && newKey !in t.tokens
    requires Run(t, opts, answers, hash, newKey, now).1.Promoted?
    ensures var r := Run(t, opts, answers, hash, newKey, now);
      var q := Gather(opts, answers).value;
      && Gather(opts, answers).Ok? && FindByEmail(t.users, q.email) == Some(r.1.id)
      && r.0.users == t.users[r.1.id := PromotedUser(t.users[r.1.id], q, hash)]
      && r.0.nextUserId == t.nextUserId
      && r.0.users[r.1.id].isStaff && r.0.users[r.1.id].isSuperuser
      && (r.1.tokenCreated <==> !HasToken(t.tokens, r.1.id))
      && r.0.tokens == GetOrCreate(t.tokens, r.1.id, newKey).tokens
      && r.1.key == GetOrCreate(t.tokens, r.1.id, newKey).key
  {
    var q := Gather(opts, answers).value;
    var id := FindByEmail(t.users, q.email).value;
    assert Run(t, opts, answers, hash, newKey, now) == Promote(t, id, q, hash, newKey);
  }

  /** A creating run: the address was not found, and the new superuser is stored with a new token. */
  lemma RunCreatedOutcome(t: AccountTables, opts: Options, answers: Answers, hash: Hasher, newKey: string, now: Timestamp)
    requires ValidAccounts(t) && newKey !in t.tokens
    requires Run(t, opts, answers, hash, newKey, now).1.CreatedSuperuser?
    ensures var r := Run(t, opts, answers, hash, newKey, now);
      var q := Gather(opts, answers).value;
      && Gather(opts, answers).Ok? && FindByEmail(t.users, q.email).None?
      && r.1.id == t.nextUserId && r.1.key == newKey && r.1.tokenCreated
      && r.0 == AccountTables(t.users[r.1.id := NewSuperuser(q, hash, now)], t.tokens[newKey := r.1.id], t.nextUserId + 1)
      && r.0.users[r.1.id].isStaff && r.0.users[r.1.id].isSuperuser
      && !HasToken(t.tokens, r.1.id)
  {
    var q := Gather(opts, answers).value;
    assert Run(t, opts, answers, hash, newKey, now) == CreateNew(t, q, hash, newKey, now);
  }

  /** Promoting a row twice with the same values is promoting it once. */
  lemma PromoteIdempotent(u: User, q: Resolved, hash: Hasher)
    ensures PromotedUser(PromotedUser(u, q, hash), q, hash) == PromotedUser(u, q, hash)
  {
  }

  /** Re-promoting a row that is already promoted and holds a token changes no table. */
  lemma RepromotionChangesNothing(t: AccountTables, id: UserId, q: Resolved, hash: Hasher, newKey: string)
    requires ValidAccounts(t) && newKey !in t.tokens && id in t.users && HasToken(t.tokens, id)
    requires PromotedUser(t.users[id], q, hash) == t.users[id]
    ensures Promote(t, id, q, hash, newKey).0 == t
  {
    assert !ClashesWithOther(t.users, id, t.users[id]);
    assert t.users[id := t.users[id]] == t.users;
  }

  /** A run that failed on a unique constraint fails the same way again: the failure depends on neither key nor clock. */
  lemma FailureRepeats(t: AccountTables, opts: Options, answers: Answers, hash: Hasher,
                       k1: string, k2: string, now1: Timestamp, now2: Timestamp)
    requires ValidAccounts(t) && k1 !in t.tokens && k2 !in t.tokens
    requires Run(t, opts, answers, hash, k1, now1).1 == IntegrityFailure
    ensures Run(t, opts, answers, hash, k2, now2) == (t, IntegrityFailure)
  {
    var q := Gather(opts, answers).value;
    if FindByEmail(t.users, q.email).None? {
      assert NewSuperuser(q, hash, now1).email == NewSuperuser(q, hash, now2).email;
    }
  }

  /** After a promotion, a second run finds the same row and changes nothing. */
  lemma PromotionRepeats(t: AccountTables, opts: Options, answers: Answers, hash: Hasher,
                         k1: string, k2: string, now1: Timestamp, now2: Timestamp)
    requires ValidAccounts(t) && k1 !in t.tokens
    requires Run(t, opts, answers, hash, k1, now1).1.Promoted?
    requires k2 !in Run(t, opts, answers, hash, k1, now1).0.tokens
    ensures var first := Run(t, opts, answers, hash, k1, now1);
            Run(first.0, opts, answers, hash, k2, now2).0 == first.0
  {
    var first := Run(t, opts, answers, hash, k1, now1);
    RunPromotedOutcome(t, opts, answers, hash, k1, now1);
    var t1 := first.0;
    var q := Gather(opts, answers).value;
    var id := first.1.id;
    assert HasToken(t1.tokens, id) by { assert t1.tokens[first.1.key] == id; }
    assert FindByEmail(t1.users, q.email) == Some(id) by { assert t1.users[id].email == q.email; }
    PromoteIdempotent(t.users[id], q, hash);
    RepromotionChangesNothing(t1, id, q, hash, k2);
  }

  /**
   * After a creation, a second run finds the new row when its stored
   * address is the one given, and changes nothing; otherwise the stored,
   * normalized address is taken and the second insert fails.
   */
  lemma CreationRepeats(t: AccountTables, opts: Options, answers: Answers, hash: Hasher,
                        k1: string, k2: string, now1: Timestamp, now2: Timestamp)
    requires ValidAccounts(t) && k1 !in t.tokens
    requires Run(t, opts, answers, hash, k1, now1).1.CreatedSuperuser?
    requires k2 !in Run(t, opts, answers, hash, k1, now1).0.tokens
    ensures var first := Run(t, opts, answers, hash, k1, now1);
            Run(first.0, opts, answers, hash, k2, now2).0 == first.0
  {
    var first := Run(t, opts, answers, hash, k1, now1);
    RunCreatedOutcome(t, opts, answers, hash, k1, now1);
    var t1 := first.0;
    var q := Gather(opts, answers).value;
    var id := first.1.id;
    assert HasToken(t1.tokens, id) by { assert t1.tokens[first.1.key] == id; }
    if NormalizeEmail(q.email) == q.email {
      assert FindByEmail(t1.users, q.email) == Some(id) by { assert t1.users[id].email == q.email; }
      RepromotionChangesNothing(t1, id, q, hash, k2);
    } else {
      assert FindByEmail(t1.users, q.email).None? by {
        assert forall other :: other in t1.users && other != id ==> other in t.users;
      }
      assert EmailTaken(t1.users, NormalizeEmail(q.email)) by { assert t1.users[id].email == NormalizeEmail(q.email); }
    }
  }

  /**
   * Running the command a second time with the same values leaves the
   * tables as the first run left them, whatever key or clock the second run
   * sees.
   */
  lemma {:induction false} RunTwice(t: AccountTables, opts: Options, answers: Answers, hash: Hasher,
                                    k1: string, k2: string, now1: Timestamp, now2: Timestamp)
    requires ValidAccounts(t) && k1 !in t.tokens
    requires k2 !in Run(t, opts, answers, hash, k1, now1).0.tokens
    ensures var first := Run(t, opts, answers, hash, k1, now1);
            Run(first.0, opts, answers, hash, k2, now2).0 == first.0
  {
    var first := Run(t, opts, answers, hash, k1, now1);
    match first.1
    case Promoted(_, _, _) => PromotionRepeats(t, opts, answers, hash, k1, k2, now1, now2);
    case CreatedSuperuser(_, _, _) => CreationRepeats(t, opts, answers, hash, k1, k2, now1, now2);
    case IntegrityFailure => FailureRepeats(t, opts, answers, hash, k1, k2, now1, now2);
    case _ =>
  }

  /** The prompting part of `handle`: options first, prompts for what they leave missing or empty. */
  method ReadValues(opts: Options, answers: Answers) returns (r: Result<Resolved, Outcome>)
    ensures r == Gather(opts, answers)
  {
    var email := opts.email;
    var username := opts.username;
    var password := opts.password;
    if !opts.noinput {
      if Falsy(email) {
        email := Some(answers.email);
      }
      if Falsy(username) {
        username := Some(answers.username);
      }
      if Falsy(password) {
        password := Some(answers.password);
        if answers.password != answers.passwordConfirm {
          return Err(PasswordMismatch);
        }
      }
    }
    if Falsy(email) || Falsy(username) || Falsy(password) {
      return Err(MissingRequired);
    }
    r := Ok(Resolved(email.value, username.value, password.value));
  }

  /** The in-place updates of the found row: flags, then password, then the username when it differs. */
  method PromoteRow(row: User, q: Resolved, hash: Hasher) returns (u: User)
    ensures u == PromotedUser(row, q, hash)
  {
    u := row;
    u := u.(isSuperuser := true, isStaff := true);
    u := u.(password := Hashed(hash(q.password)));
    if q.username != "" && u.username != q.username {
      u := u.(username := q.username);
    }
  }

  /**
   * `handle`, with option values and prompt answers as inputs and the final
   * message as the outcome; exceptions never escape it.
   */
  method Handle(db: Db, opts: Options, answers: Answers, hash: Hasher, newKey: string, now: Timestamp)
    returns (outcome: Outcome)
    requires db.Valid() && newKey !in db.tokens
    modifies db
    ensures db.Valid()
    ensures (db.Accounts(), outcome) == Run(old(db.Accounts()), opts, answers, hash, newKey, now)
    ensures db.news == old(db.news) && db.nextNewsId == old(db.nextNewsId)
  {
    var values := ReadValues(opts, answers);
    if values.Err? {
      return values.error;
    }
    var q := values.value;
    var found := FindByEmail(db.users, q.email);
    if found.Some? {
      outcome := PromoteFound(db, found.value, q, hash, newKey);
    } else {
      outcome := CreateSuperuser(db, q, hash, newKey, now);
    }
  }

  /** The promotion branch of `handle`: the row's updates, `save`, then the token. */
  method PromoteFound(db: Db, id: UserId, q: Resolved, hash: Hasher, newKey: string) returns (outcome: Outcome)
    requires db.Valid() && newKey !in db.tokens && id in db.users
    modifies db
    ensures db.Valid()
    ensures (db.Accounts(), outcome) == Promote(old(db.Accounts()), id, q, hash, newKey)
    ensures db.news == old(db.news) && db.nextNewsId == old(db.nextNewsId)
  {
    ghost var t0 := db.Accounts();
    var u := PromoteRow(db.users[id], q, hash);
    if ClashesWithOther(db.users, id, u) {
      return IntegrityFailure;
    }
    db.SaveUser(id, u);
    assert db.Accounts() == t0.(users := t0.users[id := u]);
    var key, created := db.GetOrCreateToken(id, newKey);
    outcome := Promoted(id, key, created);
  }

  /** The creation branch of `handle`: `create_superuser`, then the token. */
  method CreateSuperuser(db: Db, q: Resolved, hash: Hasher, newKey: string, now: Timestamp) returns (outcome: Outcome)
    requires db.Valid() && newKey !in db.tokens
    modifies db
    ensures db.Valid()
    ensures (db.Accounts(), outcome) == CreateNew(old(db.Accounts()), q, hash, newKey, now)
    ensures db.news == old(db.news) && db.nextNewsId == old(db.nextNewsId)
  {
    ghost var t0 := db.Accounts();
    var u := NewSuperuser(q, hash, now);
    if EmailTaken(db.users, u.email) || UsernameTaken(db.users, u.username) {
      return IntegrityFailure;
    }
    var id := db.InsertUser(u);
    assert db.Accounts() == AccountTables(t0.users[id := u], t0.tokens, id + 1);
    var key, created := db.GetOrCreateToken(id, newKey);
    outcome := CreatedSuperuser(id, key, created);
  }
}
