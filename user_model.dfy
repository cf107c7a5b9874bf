/**
 * The user record of models/User.ts and the collection's `findOne` by
 * email and `create`: `email` is required and unique, and the two name
 * fields have defaults.
 */
module UserModel {
  import opened Wrappers

  /** A user document id. */
  type UserId = nat

  const DefaultFirstName: string := "Buudy"
  const DefaultFullName: string := "Buddy"

  datatype User = User(
    id: UserId,
    email: string,
    firstName: string,
    fullName: string,
    createdAt: nat,
    updatedAt: nat)

  /** The fields handed to `create`; `None` is a field left `undefined`. */
  datatype UserFields = UserFields(email: Option<string>, firstName: Option<string>, fullName: Option<string>)

  /** The `required` validator fails, or the unique index on `email` rejects the insert. */
  datatype UserError = EmailRequired | DuplicateEmail(email: string)

  /** The value of an optional field, or its default when it is left out. */
  function OrDefault(o: Option<string>, default: string): string {
    if o.Some? then o.value else default
  }

  /**
   * Validation and defaults of `create`. A required string must be present
   * and non-empty; an absent name takes its default, a present one (even
   * "") is kept.
   */
  function ValidateUser(f: UserFields, id: UserId, now: nat): (r: Result<User, UserError>)
    ensures r.Err? <==> f.email.None? || f.email.value == ""
    ensures r.Err? ==> r.error == EmailRequired
    ensures r.Ok? ==> && Some(r.value.email) == f.email && r.value.id == id
                      && r.value.createdAt == now && r.value.updatedAt == now
    ensures r.Ok? && f.firstName.None? ==> r.value.firstName == DefaultFirstName
    ensures r.Ok? && f.firstName.Some? ==> r.value.firstName == f.firstName.value
    ensures r.Ok? && f.fullName.None? ==> r.value.fullName == DefaultFullName
    ensures r.Ok? && f.fullName.Some? ==> r.value.fullName == f.fullName.value
  {
    if f.email.None? || f.email.value == "" then Err(EmailRequired)
    else Ok(User(id, f.email.value, OrDefault(f.firstName, DefaultFirstName),
                 OrDefault(f.fullName, DefaultFullName), now, now))
  }

  /** `User.findOne({email})`: the user with that email, if any. */
  function FindByEmail(docs: seq<User>, email: string): (r: Option<User>)
    ensures r.Some? ==> r.value in docs && r.value.email == email
    ensures r.None? ==> forall u :: u in docs ==> u.email != email
  {
    if docs == [] then None
    else if docs[0].email == email then Some(docs[0])
    else FindByEmail(docs[1..], email)
  }

  /** The users whose email is `email`. */
  function WithEmail(docs: seq<User>, email: string): (r: seq<User>)
    ensures forall u :: u in r <==> u in docs && u.email == email
  {
    if docs == [] then []
    else (if docs[0].email == email then [docs[0]] else []) + WithEmail(docs[1..], email)
  }

  /** Ids and emails are distinct, and ids are below the next one to hand out. */
  ghost predicate Unique(docs: seq<User>, next: UserId) {
    && (forall i :: 0 <= i < |docs| ==> docs[i].id < next)
    && (forall i, j :: 0 <= i < j < |docs| ==> docs[i].id != docs[j].id && docs[i].email != docs[j].email)
  }

  /** Under the unique index, at most one user has a given email. */
  lemma {:induction false} AtMostOne(docs: seq<User>, next: UserId, email: string)
    requires Unique(docs, next)
    ensures |WithEmail(docs, email)| <= 1
    ensures FindByEmail(docs, email).Some? ==> WithEmail(docs, email) == [FindByEmail(docs, email).value]
  {
    if docs != [] {
      var tail := docs[1..];
      assert Unique(tail, next);
      AtMostOne(tail, next, email);
      if docs[0].email == email {
        forall u | u in tail ensures u.email != email {
          var k :| 0 <= k < |tail| && tail[k] == u;
          assert docs[k + 1] == u;
        }
        NoneWithEmail(tail, email);
      }
    }
  }

  lemma {:induction false} NoneWithEmail(docs: seq<User>, email: string)
    requires forall u :: u in docs ==> u.email != email
    ensures WithEmail(docs, email) == []
  {
    if docs != [] {
      assert docs[0] in docs;
      NoneWithEmail(docs[1..], email);
    }
  }

  /** A user with the email is found whenever one is stored. */
  lemma WithEmailFound(docs: seq<User>, email: string)
    requires |WithEmail(docs, email)| > 0
    ensures FindByEmail(docs, email).Some?
  {
    assert WithEmail(docs, email)[0] in WithEmail(docs, email);
  }

  /** What `create` does to the collection: validation, then the unique index. */
  function CreateUser(docs: seq<User>, f: UserFields, id: UserId, now: nat): (r: Result<User, UserError>)
    ensures r.Ok? ==> ValidateUser(f, id, now) == r && FindByEmail(docs, r.value.email).None?
    ensures r.Err? ==> ValidateUser(f, id, now).Err? || FindByEmail(docs, f.email.value).Some?
  {
    var v := ValidateUser(f, id, now);
    if v.Err? then v
    else if FindByEmail(docs, v.value.email).Some? then Err(DuplicateEmail(v.value.email))
    else v
  }

  /** The `User` collection. */
  class UserStore {
    var docs: seq<User>
    var nextId: UserId

    ghost predicate Valid()
      reads this
    {
      Unique(docs, nextId)
    }

    constructor ()
      ensures Valid() && docs == []
    {
      docs, nextId := [], 0;
    }

    /** `User.findOne({email})`; reads only. */
    method FindOne(email: string) returns (r: Option<User>)
      ensures r == FindByEmail(docs, email)
    {
      r := FindByEmail(docs, email);
    }

    /** `User.create(f)`: stores the validated user under a fresh id unless its email is taken. */
    method Create(f: UserFields, now: nat) returns (r: Result<User, UserError>)
      requires Valid()
      modifies this
      ensures Valid()
      ensures r == CreateUser(old(docs), f, old(nextId), now)
      ensures r.Ok? ==> docs == old(docs) + [r.value] && nextId == old(nextId) + 1
      ensures r.Err? ==> docs == old(docs) && nextId == old(nextId)
    {
      r := CreateUser(docs, f, nextId, now);
      if r.Ok? {
        AppendUnique(docs, nextId, r.value);
        docs := docs + [r.value];
        nextId := nextId + 1;
      }
    }
  }

  lemma AppendUnique(docs: seq<User>, next: UserId, u: User)
    requires Unique(docs, next) && u.id == next && FindByEmail(docs, u.email).None?
    ensures Unique(docs + [u], next + 1)
  {
    var s := docs + [u];
    forall i, j | 0 <= i < j < |s| ensures s[i].id != s[j].id && s[i].email != s[j].email {
      if j == |docs| {
        assert s[i] in docs;
      }
    }
  }
}
