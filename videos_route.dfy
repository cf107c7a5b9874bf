/**
 * `POST /api/videos` (app/api/videos/route.ts): the videos of the user
 * with the posted email, newest first. The route only reads the store, so
 * it is a function of the two collections.
 */
module VideosRoute {
  import opened Wrappers
  import opened VideoModel
  import opened UserModel
  import opened UserRoute

  /** The filter `{userId: owner}`: the owner's videos, in collection order. */
  function Owned(docs: seq<Video>, owner: Id): seq<Video> {
    if docs == [] then []
    else (if docs[0].userId == owner then [docs[0]] else []) + Owned(docs[1..], owner)
  }

  /** Exactly the owner's videos pass the filter, each as often as it is stored. */
  lemma {:induction false} OwnedExactly(docs: seq<Video>, owner: Id)
    ensures forall v :: multiset(Owned(docs, owner))[v] == if v.userId == owner then multiset(docs)[v] else 0
  {
    if docs != [] {
      OwnedExactly(docs[1..], owner);
      assert docs == [docs[0]] + docs[1..];
    }
  }

  /** Newest first: each video is at least as recent as the next. */
  predicate NewestFirst(s: seq<Video>) {
    |s| <= 1 || (s[0].createdAt >= s[1].createdAt && NewestFirst(s[1..]))
  }

  /** Along a newest-first list `createdAt` never increases, between any two positions. */
  lemma {:induction false} NewestFirstOrdered(s: seq<Video>, i: nat, j: nat)
    requires NewestFirst(s) && i < j < |s|
    ensures s[i].createdAt >= s[j].createdAt
    decreases j
  {
    if i == 0 {
      if j > 1 {
        NewestFirstOrdered(s[1..], 0, j - 1);
      }
    } else {
      NewestFirstOrdered(s[1..], i - 1, j - 1);
    }
  }

  /** Puts `v` in front of the first video that is not newer than it. */
  function InsertByDate(v: Video, s: seq<Video>): (r: seq<Video>)
    requires NewestFirst(s)
    ensures NewestFirst(r) && multiset(r) == multiset(s) + multiset{v}
    ensures r[0] == v || (s != [] && r[0] == s[0])
  {
    if s == [] || v.createdAt >= s[0].createdAt then [v] + s
    else
      var rest := InsertByDate(v, s[1..]);
      assert s == [s[0]] + s[1..];
      [s[0]] + rest
  }

  /** `.sort({createdAt: -1})`. */
  function SortNewestFirst(s: seq<Video>): (r: seq<Video>)
    ensures NewestFirst(r) && multiset(r) == multiset(s)
  {
    if s == [] then []
    else
      assert s == [s[0]] + s[1..];
      InsertByDate(s[0], SortNewestFirst(s[1..]))
  }

  /** What the route answers. `Crashed` is the unhandled error of reading `emailAddresses[0]` of an empty list. */
  datatype ListReply = Crashed | NoUserEmail | Listed(videos: seq<Video>)

  /**
   * The filter `{userId: usser?._id}`. Mongoose drops a filter key whose
   * value is `undefined`, so when no user was found (`None`) the filter is
   * `{}` and every stored video passes.
   */
  function OwnerFilter(docs: seq<Video>, owner: Option<Id>): (r: seq<Video>)
    ensures owner.None? ==> r == docs
    ensures owner.Some? ==> forall v :: multiset(r)[v] == if v.userId == owner.value then multiset(docs)[v] else 0
  {
    match owner
    case None => docs
    case Some(id) =>
      OwnedExactly(docs, id);
      Owned(docs, id)
  }

  /** The id of the user found for the email, `usser?._id`. */
  function FoundId(users: seq<User>, email: string): Option<Id> {
    match FindByEmail(users, email)
    case None => None
    case Some(owner) => Some(owner.id)
  }

  /**
   * The route as written. Without a user for the email the filter loses its
   * key, so the reply lists every stored video.
   */
  function ListVideos(users: seq<User>, videos: seq<Video>, u: ClientUser): (r: ListReply)
    ensures |u.emailAddresses| == 0 <==> r.Crashed?
    ensures r.NoUserEmail? <==> |u.emailAddresses| > 0 && u.emailAddresses[0] == ""
    ensures r.Listed? ==> NewestFirst(r.videos)
    ensures r.Listed? && FindByEmail(users, u.emailAddresses[0]).None? ==>
      multiset(r.videos) == multiset(videos)
    ensures r.Listed? && FindByEmail(users, u.emailAddresses[0]).Some? ==>
      multiset(r.videos) == multiset(Owned(videos, FindByEmail(users, u.emailAddresses[0]).value.id))
  {
    if |u.emailAddresses| == 0 then Crashed
    else
      var email := u.emailAddresses[0];
      if email == "" then NoUserEmail
      else Listed(SortNewestFirst(OwnerFilter(videos, FoundId(users, email))))
  }

  /**
   * As written, a posted email that no user has lists every stored video,
   * whoever owns it.
   */
  lemma StrangerSeesAll(users: seq<User>, videos: seq<Video>, u: ClientUser, v: Video)
    requires |u.emailAddresses| > 0 && u.emailAddresses[0] != ""
    requires FindByEmail(users, u.emailAddresses[0]).None?
    ensures ListVideos(users, videos, u).Listed?
    ensures v in ListVideos(users, videos, u).videos <==> v in videos
  {
    var r := ListVideos(users, videos, u).videos;
    assert v in r <==> multiset(r)[v] > 0;
    assert v in videos <==> multiset(videos)[v] > 0;
  }

  /**
   * The route as evidently intended: a posted email that no user has lists
   * no video.
   */
  function ListVideosCorrected(users: seq<User>, videos: seq<Video>, u: ClientUser): (r: ListReply)
    ensures |u.emailAddresses| == 0 <==> r.Crashed?
    ensures r.NoUserEmail? <==> |u.emailAddresses| > 0 && u.emailAddresses[0] == ""
    ensures r.Listed? ==> NewestFirst(r.videos)
    ensures r.Listed? && FindByEmail(users, u.emailAddresses[0]).None? ==> r.videos == []
    ensures r.Listed? && FindByEmail(users, u.emailAddresses[0]).Some? ==>
      r == ListVideos(users, videos, u)
  {
    if |u.emailAddresses| == 0 then Crashed
    else
      var email := u.emailAddresses[0];
      if email == "" then NoUserEmail
      else
        match FindByEmail(users, email)
        case None => Listed([])
        case Some(owner) => Listed(SortNewestFirst(Owned(videos, owner.id)))
  }

  /**
   * With the correction, a video is listed exactly when it is stored and
   * belongs to the user with the posted email.
   */
  lemma ListedAreTheOwners(users: seq<User>, videos: seq<Video>, u: ClientUser, v: Video)
    requires ListVideosCorrected(users, videos, u).Listed?
    ensures v in ListVideosCorrected(users, videos, u).videos <==>
      v in videos && FindByEmail(users, u.emailAddresses[0]).Some?
      && v.userId == FindByEmail(users, u.emailAddresses[0]).value.id
  {
    var email := u.emailAddresses[0];
    if FindByEmail(users, email).Some? {
      var owner := FindByEmail(users, email).value;
      var r := ListVideosCorrected(users, videos, u).videos;
      OwnedExactly(videos, owner.id);
      assert v in r <==> multiset(r)[v] > 0;
      assert v in videos <==> multiset(videos)[v] > 0;
    }
  }
}
