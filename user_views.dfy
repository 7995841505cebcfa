/**
 * The API part of users/views.py: `UserViewSet`'s permission table,
 * visible-set filter and `"me"` lookup, and the `register`, `login` and
 * `logout` endpoints with their effects on the user and token tables and
 * on the client's session.
 */
module UserViews {
  import opened Wrappers
  import opened UserModel
  import opened Store
  import opened UserSerializers

  /** The actions of a `ModelViewSet`; `Other` covers any extra route. */
  datatype Action = List | Create | Retrieve | Update | PartialUpdate | Destroy | Other(name: string)

  datatype PermissionClass = IsAdminUser | IsAuthenticated

  /** `UserViewSet.get_permissions`. */
  function GetPermissions(action: Action): (p: PermissionClass)
    ensures p == IsAdminUser <==> action == List || action == Destroy
  {
    match action
    case List => IsAdminUser
    case Retrieve => IsAuthenticated
    case Update | PartialUpdate => IsAuthenticated
    case Destroy => IsAdminUser
    case _ => IsAuthenticated
  }

  /** `has_permission` of the two permission classes. */
  predicate Grants(p: PermissionClass, actor: Actor) {
    match p
    case IsAdminUser => actor.Member? && actor.user.isStaff
    case IsAuthenticated => actor.Member?
  }

  /**
   * Why a request is refused: an unauthenticated caller gets
   * `NotAuthenticated`, an authenticated one `PermissionDenied`; both are
   * 403, since the first configured authenticator (session authentication)
   * sends no authentication challenge.
   */
  datatype Denial = NotAuthenticated | PermissionDenied

  /** `check_permissions` for an action. */
  function CheckPermissions(action: Action, actor: Actor): (r: Option<Denial>)
    ensures action == List || action == Destroy ==> (r.None? <==> actor.IsStaff())
    ensures action != List && action != Destroy ==> (r.None? <==> actor.IsAuthenticated())
    ensures actor.Anonymous? ==> r == Some(NotAuthenticated)
    ensures actor.Member? && r.Some? ==> r == Some(PermissionDenied)
  {
    if Grants(GetPermissions(action), actor) then None
    else if actor.Anonymous? then Some(NotAuthenticated)
    else Some(PermissionDenied)
  }

  /** `UserViewSet.get_queryset`: the ids a caller may see. */
  function GetQueryset(users: map<UserId, User>, actor: Actor): (r: set<UserId>)
    ensures r <= users.Keys
    ensures actor.IsStaff() ==> r == users.Keys
    ensures actor.Member? && !actor.IsStaff() ==> r == (if actor.id in users then {actor.id} else {})
    ensures actor.Anonymous? ==> r == {}
  {
    if actor.IsStaff() then users.Keys
    else if actor.Member? then set id | id in users && id == actor.id
    else {}
  }

  function DigitValue(c: char): nat
    requires '0' <= c <= '9'
  {
    c as int - '0' as int
  }

  function DigitChar(d: nat): (c: char)
    requires d < 10
    ensures '0' <= c <= '9' && DigitValue(c) == d
  {
    ('0' as int + d) as char
  }

  /** The value of a string of ASCII digits, read left to right. */
  function DigitsValue(s: string): nat
    requires forall i :: 0 <= i < |s| ==> '0' <= s[i] <= '9'
  {
    if s == [] then 0 else DigitsValue(s[..|s| - 1]) * 10 + DigitValue(s[|s| - 1])
  }

  /** The decimal form of an id, as it appears in a URL. */
  function IdText(n: nat): (s: string)
    ensures |s| > 0 && forall i :: 0 <= i < |s| ==> '0' <= s[i] <= '9'
  {
    if n < 10 then [DigitChar(n)] else IdText(n / 10) + [DigitChar(n % 10)]
  }

  /** The primary-key lookup of a URL segment: a non-empty run of digits, else not found. */
  function ParsePk(pk: string): (r: Option<UserId>)
    ensures r.Some? <==> |pk| > 0 && forall i :: 0 <= i < |pk| ==> '0' <= pk[i] <= '9'
  {
    if |pk| > 0 && forall i :: 0 <= i < |pk| ==> '0' <= pk[i] <= '9' then Some(DigitsValue(pk)) else None
  }

  /** Reading back the decimal form of an id gives the id. */
  lemma {:induction false} ParseIdText(n: nat)
    ensures ParsePk(IdText(n)) == Some(n)
    ensures IdText(n) != "me"
    decreases n
  {
    var s := IdText(n);
    if n < 10 {
      assert s[..|s| - 1] == [];
    } else {
      ParseIdText(n / 10);
      assert s[..|s| - 1] == IdText(n / 10);
      assert s[0] == IdText(n / 10)[0];
      assert DigitValue(s[|s| - 1]) == n % 10;
      assert DigitsValue(s) == DigitsValue(IdText(n / 10)) * 10 + n % 10;
    }
  }

  /** What `get_object` yields: the caller itself, a user row, or 404. */
  datatype Lookup = Caller | Found(id: UserId) | NotFound

  /**
   * `UserViewSet.get_object`: `"me"` is the caller with no lookup; any other
   * pk is looked up within the caller's visible set.
   */
  function GetObject(users: map<UserId, User>, actor: Actor, pk: string): (r: Lookup)
    ensures pk == "me" <==> r == Caller
    ensures pk != "me" ==> (r.Found? <==> ParsePk(pk).Some? && ParsePk(pk).value in GetQueryset(users, actor))
    ensures r.Found? ==> ParsePk(pk) == Some(r.id) && r.id in users
  {
    if pk == "me" then Caller
    else match ParsePk(pk)
      case Some(id) => if id in GetQueryset(users, actor) then Found(id) else NotFound
      case None => NotFound
  }

  /** A non-staff caller asking for another user's id gets 404. */
  lemma OtherUserHidden(users: map<UserId, User>, actor: Actor, id: UserId)
    requires actor.Member? && !actor.IsStaff() && id != actor.id
    ensures GetObject(users, actor, IdText(id)) == NotFound
  {
    ParseIdText(id);
  }

  /** A caller always finds their own row by id; staff find every row. */
  lemma VisibleUserFound(users: map<UserId, User>, actor: Actor, id: UserId)
    requires id in users
    requires (actor.Member? && actor.id == id) || actor.IsStaff()
    ensures GetObject(users, actor, IdText(id)) == Found(id)
  {
    ParseIdText(id);
  }

  datatype Body =
    | UserAndToken(id: UserId, user: User, token: string)
    | FieldErrors(fields: set<Field>)
    | InvalidCredentials
    | LoggedOut
    | Refused(reason: Denial)

  datatype Reply = Reply(status: int, body: Body)

  /**
   * `register`: an invalid payload is answered 400 with its field errors and
   * changes nothing; a valid one creates the user and its token, and the
   * following `get_or_create` returns that same token, answered 201.
   */
  method Register(db: Db, input: RegistrationInput, checks: FieldChecks, hash: Hasher, newKey: string, now: Timestamp)
    returns (reply: Reply)
    requires db.Valid() && newKey !in db.tokens
    modifies db
    ensures db.Valid()
    ensures db.news == old(db.news) && db.nextNewsId == old(db.nextNewsId)
    ensures var v := ValidateRegistration(old(db.users), input, checks);
      && (v.Err? ==> reply == Reply(400, FieldErrors(v.error)) && db.Accounts() == old(db.Accounts()))
      && (v.Ok? ==>
            var id := old(db.nextUserId);
            && reply == Reply(201, UserAndToken(id, RegisteredUser(v.value, hash, now), newKey))
            && db.users == old(db.users)[id := RegisteredUser(v.value, hash, now)]
            && db.tokens == old(db.tokens)[newKey := id]
            && db.nextUserId == id + 1)
  {
    var v := ValidateRegistration(db.users, input, checks);
    if v.Err? {
      return Reply(400, FieldErrors(v.error));
    }
    var id := CreateRegisteredUser(db, v.value, hash, newKey, now);
    assert HasToken(db.tokens, id) by { assert db.tokens[newKey] == id; }
    var key, created := db.GetOrCreateToken(id, newKey);
    reply := Reply(201, UserAndToken(id, db.users[id], key));
  }

  /**
   * `login`: an invalid payload is 400; credentials that do not
   * authenticate are 401 with one error; otherwise the session is logged
   * in, `last_login` is stamped, and the user's token (created only when
   * there is none) is answered 200. `authenticated` is what `authenticate`
   * returned: an active user with that email whose password matched.
   */
  method Login(db: Db, session: Session, input: LoginInput, checks: FieldChecks,
               authenticated: Option<UserId>, newKey: string, now: Timestamp)
    returns (reply: Reply)
    requires db.Valid() && newKey !in db.tokens
    requires authenticated.Some? ==>
      authenticated.value in db.users && db.users[authenticated.value].isActive &&
      input.email == Some(db.users[authenticated.value].email)
    modifies db, session
    ensures db.Valid()
    ensures db.news == old(db.news) && db.nextUserId == old(db.nextUserId) && db.nextNewsId == old(db.nextNewsId)
    ensures LoginFieldErrors(input, checks) != {} ==>
      reply == Reply(400, FieldErrors(LoginFieldErrors(input, checks))) &&
      db.Accounts() == old(db.Accounts()) && session.user == old(session.user)
    ensures LoginFieldErrors(input, checks) == {} && authenticated.None? ==>
      reply == Reply(401, InvalidCredentials) &&
      db.Accounts() == old(db.Accounts()) && session.user == old(session.user)
    ensures LoginFieldErrors(input, checks) == {} && authenticated.Some? ==>
      var id := authenticated.value;
      var g := GetOrCreate(old(db.tokens), id, newKey);
      && session.user == Some(id)
      && db.users == old(db.users)[id := old(db.users)[id].(lastLogin := Some(now))]
      && db.tokens == g.tokens
      && reply == Reply(200, UserAndToken(id, db.users[id], g.key))
  {
    var errs := LoginFieldErrors(input, checks);
    if errs != {} {
      return Reply(400, FieldErrors(errs));
    }
    if authenticated.None? {
      return Reply(401, InvalidCredentials);
    }
    var id := authenticated.value;
    session.user := Some(id);
    var u := db.users[id].(lastLogin := Some(now));
    assert !ClashesWithOther(db.users, id, u);
    db.SaveUser(id, u);
    var key, created := db.GetOrCreateToken(id, newKey);
    reply := Reply(200, UserAndToken(id, db.users[id], key));
  }

  /**
   * `logout`: an unauthenticated caller is refused (403); otherwise the
   * caller's token is deleted when there is one, the session is logged out,
   * and the answer is 200.
   */
  method Logout(db: Db, session: Session, actor: Actor) returns (reply: Reply)
    requires db.Valid()
    modifies db, session
    ensures db.Valid()
    ensures db.users == old(db.users) && db.nextUserId == old(db.nextUserId)
    ensures db.news == old(db.news) && db.nextNewsId == old(db.nextNewsId)
    ensures actor.Anonymous? ==>
      reply == Reply(403, Refused(NotAuthenticated)) &&
      db.tokens == old(db.tokens) && session.user == old(session.user)
    ensures actor.Member? ==>
      reply == Reply(200, LoggedOut) &&
      db.tokens == WithoutTokensOf(old(db.tokens), actor.id) && session.user.None?
  {
    if actor.Anonymous? {
      return Reply(403, Refused(NotAuthenticated));
    }
    db.DeleteTokenOf(actor.id);
    session.user := None;
    reply := Reply(200, LoggedOut);
  }
}
