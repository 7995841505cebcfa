/**
 * The `IsAuthor` permission of landing/permissions.py: a view-level and an
 * object-level check over the request method, the request's user and the
 * object's `author` / `book` attributes.
 */
module Permissions {
  import opened Wrappers
  import opened UserModel
  import opened LandingModel

  /** `SAFE_METHODS`. */
  predicate IsSafe(verb: string) {
    verb == "GET" || verb == "HEAD" || verb == "OPTIONS"
  }

  /**
   * `getattr(request.user, "is_author", False)`. Neither `CustomUser` nor
   * the anonymous user defines an `is_author` attribute, so the default
   * applies for every actor.
   */
  predicate IsAuthorAttribute(actor: Actor) {
    false
  }

  /**
   * `IsAuthor.has_permission`: safe methods always pass; an unsafe one
   * needs an authenticated user who is staff (the missing `is_author`
   * counts as false).
   */
  function HasPermission(verb: string, actor: Actor): (allowed: bool)
    ensures IsSafe(verb) ==> allowed
    ensures !IsSafe(verb) ==> (allowed <==> actor.Member? && actor.user.isStaff)
  {
    if IsSafe(verb) then true
    else actor.IsAuthenticated() && (IsAuthorAttribute(actor) || actor.IsStaff())
  }

  /** The value of an object attribute compared with `request.user`. */
  datatype AttrValue = UserRef(id: UserId) | Text(text: string) | Null

  /**
   * The attributes the check probes: `author` when the object has one, and
   * the `author` of `obj.book` when the object has a `book`.
   */
  datatype Target = Target(author: Option<AttrValue>, bookAuthor: Option<AttrValue>)

  /**
   * `value == request.user`: model instances compare by primary key; a
   * string or `None` never equals a user, and a user never equals the
   * anonymous user.
   */
  predicate SameUser(v: AttrValue, actor: Actor) {
    v.UserRef? && actor.Member? && v.id == actor.id
  }

  /**
   * `IsAuthor.has_object_permission`: safe methods pass; otherwise the
   * `author` attribute decides when present (the `book` is then ignored),
   * else the book's author, else the request is denied. Staff are not
   * exempt.
   */
  function HasObjectPermission(verb: string, actor: Actor, obj: Target): (allowed: bool)
    ensures IsSafe(verb) ==> allowed
    ensures !IsSafe(verb) && obj.author.Some? ==>
      (allowed <==> obj.author.value.UserRef? && actor.Member? && obj.author.value.id == actor.id)
    ensures !IsSafe(verb) && obj.author.None? && obj.bookAuthor.Some? ==>
      (allowed <==> obj.bookAuthor.value.UserRef? && actor.Member? && obj.bookAuthor.value.id == actor.id)
    ensures !IsSafe(verb) && obj.author.None? && obj.bookAuthor.None? ==> !allowed
  {
    if IsSafe(verb) then true
    else if obj.author.Some? then SameUser(obj.author.value, actor)
    else if obj.bookAuthor.Some? then SameUser(obj.bookAuthor.value, actor)
    else false
  }

  /** Staff who are not the author are denied unsafe methods on an authored object. */
  lemma StaffNotExempt(verb: string, id: UserId, u: User, owner: UserId, obj: Target)
    requires !IsSafe(verb) && u.isStaff && owner != id
    requires obj.author == Some(UserRef(owner))
    ensures !HasObjectPermission(verb, Member(id, u), obj)
  {
  }

  /** The attributes of a News item: `author` is its user. */
  function NewsTarget(n: News): Target {
    Target(Some(UserRef(n.author)), None)
  }

  /** The attributes of a Book: `author` is free text. */
  function BookTarget(b: Book): Target {
    Target(Some(Text(b.author)), None)
  }

  /** An Item has neither attribute. */
  function ItemTarget(i: Item): Target {
    Target(None, None)
  }

  /** An unsafe method on a News item is allowed exactly for its author. */
  lemma NewsObjectPermission(verb: string, actor: Actor, n: News)
    requires !IsSafe(verb)
    ensures HasObjectPermission(verb, actor, NewsTarget(n)) <==> actor.Member? && actor.id == n.author
  {
  }

  /**
   * Because a Book's `author` is a string, no user ever equals it: unsafe
   * methods on a Book are denied to everyone at the object level.
   */
  lemma BookObjectPermission(verb: string, actor: Actor, b: Book)
    requires !IsSafe(verb)
    ensures !HasObjectPermission(verb, actor, BookTarget(b))
  {
  }

  /** Unsafe methods on an Item are denied to everyone at the object level. */
  lemma ItemObjectPermission(verb: string, actor: Actor, i: Item)
    requires !IsSafe(verb)
    ensures !HasObjectPermission(verb, actor, ItemTarget(i))
  {
  }
}
