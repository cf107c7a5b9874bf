/**
 * `POST /api/user` (app/api/user/route.ts): find a user by the first email
 * address of the posted Clerk user, and create one if there is none.
 */
module UserRoute {
  import opened Wrappers
  import opened UserModel

  /** The parts of a Clerk user object the routes read. */
  datatype ClientUser = ClientUser(emailAddresses: seq<string>, firstName: Option<string>, fullName: Option<string>)

  /** The request body; `user` is `None` when the body has no `user` field (or is `null`). */
  datatype UserRequest = UserRequest(user: Option<ClientUser>)

  /**
   * The body the page sends (app/page.tsx:90-93): the Clerk user object
   * itself, which has no `user` field.
   */
  function SentByPage(u: ClientUser): UserRequest {
    UserRequest(None)
  }

  /** `user.emailAddresses?.[0]?.emailAddress`. */
  function FirstEmail(u: ClientUser): Option<string> {
    if |u.emailAddresses| > 0 then Some(u.emailAddresses[0]) else None
  }

  /** JavaScript truthiness of an optional string. */
  predicate Truthy(o: Option<string>) {
    o.Some? && o.value != ""
  }

  /** `x || ""` on an optional string. */
  function OrEmpty(o: Option<string>): string {
    if Truthy(o) then o.value else ""
  }

  /** The JSON the route answers with; `Succeeded` is its `success` flag. */
  datatype UserReply =
    | NoUserProvided
    | NoEmailProvided
    | AlreadyExists
    | Created(user: User)
    | FailedToCreate

  predicate Succeeded(r: UserReply) {
    r.AlreadyExists? || r.Created?
  }

  /**
   * The route. `storeUp` is false when a store call raises, which the route
   * reports as "Failed to create user"; `now` is the clock.
   */
  method Post(store: UserStore, req: UserRequest, storeUp: bool, now: nat) returns (reply: UserReply)
    requires store.Valid()
    modifies store
    ensures store.Valid()
    ensures req.user.None? ==> reply == NoUserProvided
    ensures req.user.Some? && !Truthy(FirstEmail(req.user.value)) ==> reply == NoEmailProvided
    ensures req.user.Some? && Truthy(FirstEmail(req.user.value)) ==>
      var email := FirstEmail(req.user.value).value;
      && (!storeUp ==> reply == FailedToCreate)
      && (storeUp && FindByEmail(old(store.docs), email).Some? ==> reply == AlreadyExists)
      && (storeUp && FindByEmail(old(store.docs), email).None? ==>
            && reply.Created?
            && reply.user.email == email
            && reply.user.firstName == OrEmpty(req.user.value.firstName)
            && reply.user.fullName == OrEmpty(req.user.value.fullName))
    ensures reply.Created? ==> store.docs == old(store.docs) + [reply.user]
    ensures !reply.Created? ==> store.docs == old(store.docs)
    ensures Succeeded(reply) ==>
      |WithEmail(store.docs, FirstEmail(req.user.value).value)| == 1
  {
    if req.user.None? {
      return NoUserProvided;
    }
    var user := req.user.value;
    var email := FirstEmail(user);
    if !Truthy(email) {
      return NoEmailProvided;
    }
    if !storeUp {
      return FailedToCreate;
    }
    var existing := store.FindOne(email.value);
    if existing.Some? {
      AtMostOne(store.docs, store.nextId, email.value);
      return AlreadyExists;
    }
    var created := store.Create(FieldsFor(user, email.value), now);
    if created.Err? {
      return FailedToCreate;
    }
    reply := Created(created.value);
    AtMostOne(store.docs, store.nextId, email.value);
  }

  /** The page's own request always takes the "No user provided" branch and creates nobody. */
  method PostFromPage(store: UserStore, u: ClientUser, storeUp: bool, now: nat) returns (reply: UserReply)
    requires store.Valid()
    modifies store
    ensures reply == NoUserProvided && store.docs == old(store.docs)
  {
    reply := Post(store, SentByPage(u), storeUp, now);
  }

  /** The body the route expects: the Clerk user under the `user` key. */
  function SentCorrectly(u: ClientUser): UserRequest {
    UserRequest(Some(u))
  }

  /**
   * The page's request with the user wrapped as the route expects: a user
   * with an email is registered (or found) whenever the store is up, and
   * is then the only user with that email.
   */
  method PostFromPageCorrected(store: UserStore, u: ClientUser, storeUp: bool, now: nat) returns (reply: UserReply)
    requires store.Valid()
    modifies store
    ensures store.Valid()
    ensures !Truthy(FirstEmail(u)) ==> reply == NoEmailProvided && store.docs == old(store.docs)
    ensures Truthy(FirstEmail(u)) && storeUp ==>
      && Succeeded(reply)
      && |WithEmail(store.docs, FirstEmail(u).value)| == 1
      && FindByEmail(store.docs, FirstEmail(u).value).Some?
  {
    reply := Post(store, SentCorrectly(u), storeUp, now);
    if Succeeded(reply) {
      WithEmailFound(store.docs, FirstEmail(u).value);
    }
  }

  /** The fields the route passes to `create`: the email and both names, `x || ""`. */
  function FieldsFor(u: ClientUser, email: string): UserFields {
    UserFields(Some(email), Some(OrEmpty(u.firstName)), Some(OrEmpty(u.fullName)))
  }

  /**
   * The schema's name defaults never apply on this route: a user posted
   * without names is stored with "" for both, not "Buudy" and "Buddy".
   */
  lemma NameDefaultsUnused(u: ClientUser, email: string, id: UserId, now: nat)
    requires email != "" && !Truthy(u.firstName) && !Truthy(u.fullName)
    ensures ValidateUser(FieldsFor(u, email), id, now).Ok?
    ensures ValidateUser(FieldsFor(u, email), id, now).value.firstName == ""
    ensures ValidateUser(FieldsFor(u, email), id, now).value.fullName == ""
  {
  }
}
