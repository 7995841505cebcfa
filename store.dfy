/**
 * The database tables the core reads and writes: users, bearer tokens
 * (rest_framework.authtoken) and News, with the constraints the database
 * enforces stated as an invariant, and the session of a client.
 */
module Store {
  import opened Wrappers
  import opened UserModel
  import opened LandingModel

  /** The token table: token key (its primary key) to the user it belongs to. */
  type TokenTable = map<string, UserId>

  predicate HasToken(tokens: TokenTable, id: UserId) {
    exists k :: k in tokens && tokens[k] == id
  }

  /** `Token.user` is a one-to-one field: a user has at most one token. */
  predicate OneTokenPerUser(tokens: TokenTable) {
    forall k1, k2 :: k1 in tokens && k2 in tokens && tokens[k1] == tokens[k2] ==> k1 == k2
  }

  /** The key of a user's token (`user.auth_token.key`). */
  function TokenOf(tokens: TokenTable, id: UserId): (k: string)
    requires OneTokenPerUser(tokens) && HasToken(tokens, id)
    ensures k in tokens && tokens[k] == id
  {
    var k :| k in tokens && tokens[k] == id;
    k
  }

  /** What `Token.objects.get_or_create(user=...)` leaves and returns. */
  datatype TokenGrant = TokenGrant(tokens: TokenTable, key: string, created: bool)

  /**
   * `get_or_create`: the user's existing token when there is one, otherwise
   * a new token under the freshly generated `newKey`.
   */
  function GetOrCreate(tokens: TokenTable, id: UserId, newKey: string): (g: TokenGrant)
    requires OneTokenPerUser(tokens) && (HasToken(tokens, id) || newKey !in tokens)
    ensures g.created <==> !HasToken(tokens, id)
    ensures g.key in g.tokens && g.tokens[g.key] == id
    ensures !g.created ==> g.tokens == tokens
    ensures g.created ==> g.key == newKey && g.tokens == tokens[newKey := id]
    ensures OneTokenPerUser(g.tokens)
  {
    if HasToken(tokens, id) then TokenGrant(tokens, TokenOf(tokens, id), false)
    else TokenGrant(tokens[newKey := id], newKey, true)
  }

  /**
   * A second `get_or_create` for the same user changes nothing and returns
   * the same key, whatever key it would have generated.
   */
  lemma GetOrCreateIdempotent(tokens: TokenTable, id: UserId, k1: string, k2: string)
    requires OneTokenPerUser(tokens) && (HasToken(tokens, id) || k1 !in tokens)
    ensures var g := GetOrCreate(tokens, id, k1);
            GetOrCreate(g.tokens, id, k2) == TokenGrant(g.tokens, g.key, false)
  {
    var g := GetOrCreate(tokens, id, k1);
    assert HasToken(g.tokens, id);
  }

  /** The token table after `user.auth_token.delete()` (nothing to do when there is no token). */
  function WithoutTokensOf(tokens: TokenTable, id: UserId): (r: TokenTable)
    ensures forall k :: k in r <==> k in tokens && tokens[k] != id
    ensures forall k :: k in r ==> r[k] == tokens[k]
    ensures !HasToken(r, id)
    ensures !HasToken(tokens, id) ==> r == tokens
  {
    map k | k in tokens && tokens[k] != id :: tokens[k]
  }

  /** Deleting a user's token twice is deleting it once; other users keep theirs. */
  lemma {:induction false} RevokeIdempotent(tokens: TokenTable, id: UserId, other: UserId)
    requires other != id
    ensures WithoutTokensOf(WithoutTokensOf(tokens, id), id) == WithoutTokensOf(tokens, id)
    ensures HasToken(WithoutTokensOf(tokens, id), other) <==> HasToken(tokens, other)
  {
    var r := WithoutTokensOf(tokens, id);
    if HasToken(tokens, other) {
      var k :| k in tokens && tokens[k] == other;
      assert k in r;
    }
  }

  /** The account tables: users by id, tokens, and the next auto-increment id. */
  datatype AccountTables = AccountTables(users: map<UserId, User>, tokens: TokenTable, nextUserId: nat)

  /** The database constraints on the account tables. */
  predicate ValidAccounts(t: AccountTables) {
    && UniqueEmails(t.users)
    && UniqueUsernames(t.users)
    && OneTokenPerUser(t.tokens)
    && (forall k :: k in t.tokens ==> t.tokens[k] in t.users)
    && (forall id :: id in t.users ==> id < t.nextUserId)
  }

  /** Inserting a user whose email and username are free keeps the constraints. */
  lemma InsertKeepsValid(t: AccountTables, u: User)
    requires ValidAccounts(t)
    requires !EmailTaken(t.users, u.email) && !UsernameTaken(t.users, u.username)
    ensures ValidAccounts(AccountTables(t.users[t.nextUserId := u], t.tokens, t.nextUserId + 1))
  {
  }

  /** Rewriting a user so that no other row shares its email or username keeps the constraints. */
  lemma UpdateKeepsValid(t: AccountTables, id: UserId, u: User)
    requires ValidAccounts(t) && id in t.users && !ClashesWithOther(t.users, id, u)
    ensures ValidAccounts(t.(users := t.users[id := u]))
  {
  }

  /** Granting an existing user a token keeps the constraints. */
  lemma GrantKeepsValid(t: AccountTables, id: UserId, newKey: string)
    requires ValidAccounts(t) && id in t.users && (HasToken(t.tokens, id) || newKey !in t.tokens)
    ensures ValidAccounts(t.(tokens := GetOrCreate(t.tokens, id, newKey).tokens))
  {
  }

  /** The outcome of `TokenAuthentication` for a presented key. */
  datatype TokenCheck = TokenUser(id: UserId) | InvalidToken | InactiveUser

  /**
   * `TokenAuthentication.authenticate_credentials`: an unknown key is an
   * invalid token, a key of an inactive user is refused, otherwise the
   * request acts as the token's user.
   */
  function AuthenticateToken(t: AccountTables, key: string): (r: TokenCheck)
    ensures r.TokenUser? <==> key in t.tokens && t.tokens[key] in t.users && t.users[t.tokens[key]].isActive
    ensures r.TokenUser? ==> r.id == t.tokens[key]
    ensures r == InvalidToken <==> key !in t.tokens || t.tokens[key] !in t.users
  {
    if key !in t.tokens || t.tokens[key] !in t.users then InvalidToken
    else if !t.users[t.tokens[key]].isActive then InactiveUser
    else TokenUser(t.tokens[key])
  }

  /** The key `get_or_create` hands out authenticates its (active) user. */
  lemma GrantedTokenAuthenticates(t: AccountTables, id: UserId, newKey: string)
    requires ValidAccounts(t) && id in t.users && t.users[id].isActive
    requires HasToken(t.tokens, id) || newKey !in t.tokens
    ensures var g := GetOrCreate(t.tokens, id, newKey);
            AuthenticateToken(t.(tokens := g.tokens), g.key) == TokenUser(id)
  {
  }

  /** Once a user's token is deleted, its key no longer authenticates anyone. */
  lemma RevokedTokenRejected(t: AccountTables, id: UserId, key: string)
    requires key in t.tokens && t.tokens[key] == id
    ensures AuthenticateToken(t.(tokens := WithoutTokensOf(t.tokens, id)), key) == InvalidToken
  {
  }

  /** The database. */
  class Db {
    var users: map<UserId, User>
    var tokens: TokenTable
    var nextUserId: nat
    var news: map<NewsId, News>
    var nextNewsId: nat

    function Accounts(): AccountTables
      reads this
    {
      AccountTables(users, tokens, nextUserId)
    }

    ghost predicate Valid()
      reads this
    {
      && ValidAccounts(Accounts())
      && AuthorsExist(news, users.Keys)
      && (forall n :: n in news ==> n < nextNewsId)
    }

    constructor ()
      ensures Valid()
      ensures users == map[] && tokens == map[] && news == map[]
    {
      users, tokens, nextUserId := map[], map[], 0;
      news, nextNewsId := map[], 0;
    }

    /** The INSERT of a new user row, under the next auto-increment id. */
    method InsertUser(u: User) returns (id: UserId)
      requires Valid()
      requires !EmailTaken(users, u.email) && !UsernameTaken(users, u.username)
      modifies this
      ensures Valid()
      ensures id == old(nextUserId) && id !in old(users)
      ensures users == old(users)[id := u] && nextUserId == id + 1
      ensures tokens == old(tokens) && news == old(news) && nextNewsId == old(nextNewsId)
    {
      InsertKeepsValid(Accounts(), u);
      id := nextUserId;
      users := users[id := u];
      nextUserId := nextUserId + 1;
    }

    /** The UPDATE of an existing user row (`user.save()`). */
    method SaveUser(id: UserId, u: User)
      requires Valid() && id in users && !ClashesWithOther(users, id, u)
      modifies this
      ensures Valid()
      ensures users == old(users)[id := u]
      ensures tokens == old(tokens) && nextUserId == old(nextUserId)
      ensures news == old(news) && nextNewsId == old(nextNewsId)
    {
      UpdateKeepsValid(Accounts(), id, u);
      users := users[id := u];
    }

    /** `Token.objects.create(user=...)` for a user that has no token yet. */
    method CreateToken(id: UserId, key: string)
      requires Valid() && id in users && !HasToken(tokens, id) && key !in tokens
      modifies this
      ensures Valid()
      ensures tokens == old(tokens)[key := id]
      ensures users == old(users) && nextUserId == old(nextUserId)
      ensures news == old(news) && nextNewsId == old(nextNewsId)
    {
      GrantKeepsValid(Accounts(), id, key);
      tokens := tokens[key := id];
    }

    /** `Token.objects.get_or_create(user=...)`. */
    method GetOrCreateToken(id: UserId, newKey: string) returns (key: string, created: bool)
      requires Valid() && id in users && (HasToken(tokens, id) || newKey !in tokens)
      modifies this
      ensures Valid()
      ensures TokenGrant(tokens, key, created) == GetOrCreate(old(tokens), id, newKey)
      ensures users == old(users) && nextUserId == old(nextUserId)
      ensures news == old(news) && nextNewsId == old(nextNewsId)
    {
      GrantKeepsValid(Accounts(), id, newKey);
      if HasToken(tokens, id) {
        key, created := TokenOf(tokens, id), false;
      } else {
        tokens := tokens[newKey := id];
        key, created := newKey, true;
      }
    }

    /** `user.auth_token.delete()`, where a missing token is not an error. */
    method DeleteTokenOf(id: UserId)
      requires Valid()
      modifies this
      ensures Valid()
      ensures tokens == WithoutTokensOf(old(tokens), id)
      ensures !HasToken(tokens, id)
      ensures users == old(users) && nextUserId == old(nextUserId)
      ensures news == old(news) && nextNewsId == old(nextNewsId)
    {
      tokens := WithoutTokensOf(tokens, id);
    }

    /** The INSERT of a News row; its author must exist (foreign key). */
    method InsertNews(n: News) returns (id: NewsId)
      requires Valid() && n.author in users
      modifies this
      ensures Valid()
      ensures id == old(nextNewsId) && id !in old(news)
      ensures news == old(news)[id := n] && nextNewsId == id + 1
      ensures users == old(users) && tokens == old(tokens) && nextUserId == old(nextUserId)
    {
      id := nextNewsId;
      news := news[id := n];
      nextNewsId := nextNewsId + 1;
    }

    /**
     * Deleting a user: the row, its token (one-to-one, cascading) and its
     * News (`on_delete=CASCADE`) go; everything else stays.
     */
    method DeleteUser(id: UserId)
      requires Valid()
      modifies this
      ensures Valid()
      ensures users == old(users) - {id}
      ensures tokens == WithoutTokensOf(old(tokens), id)
      ensures news == RemoveAuthoredBy(old(news), id)
      ensures forall n :: n in news ==> news[n].author != id
      ensures nextUserId == old(nextUserId) && nextNewsId == old(nextNewsId)
    {
      CascadeKeepsAuthorsExisting(news, users.Keys, id);
      users := users - {id};
      tokens := WithoutTokensOf(tokens, id);
      news := RemoveAuthoredBy(news, id);
    }
  }

  /** The server-side session of one client: the user it is logged in as. */
  class Session {
    var user: Option<UserId>

    constructor ()
      ensures user.None?
    {
      user := None;
    }
  }
}
