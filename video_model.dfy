/**
 * The video record of models/Video.ts and the three store operations the
 * code performs on the collection: `create`, which runs the schema's
 * validators and defaults, `findByIdAndUpdate`, which runs neither, and
 * `findByIdAndDelete`.
 */
module VideoModel {
  import opened Wrappers

  /** A document id (`ObjectId`, or its string form in events and URLs). */
  type Id = nat

  /** The values the schema's enum admits for `status`. */
  datatype Status = Processing | Success | Failed

  function StatusName(s: Status): string {
    match s
    case Processing => "processing"
    case Success => "success"
    case Failed => "failed"
  }

  /** The enum validator: exactly the three names are admitted, each naming its own value. */
  function ParseStatus(name: string): (r: Option<Status>)
    ensures r.Some? ==> StatusName(r.value) == name
    ensures r.None? ==> forall s: Status :: StatusName(s) != name
  {
    if name == "processing" then Some(Processing)
    else if name == "success" then Some(Success)
    else if name == "failed" then Some(Failed)
    else None
  }

  /** Every status is admitted under its own name. */
  lemma StatusNameParses(s: Status)
    ensures ParseStatus(StatusName(s)) == Some(s)
  {
  }

  /** A stored video. `prompt` and `videoUrl` are optional; the timestamps are kept by the store. */
  datatype Video = Video(
    id: Id,
    userId: Id,
    prompt: Option<string>,
    videoUrl: Option<string>,
    status: Status,
    createdAt: nat,
    updatedAt: nat)

  /** The fields handed to `create`; `None` is a field left `undefined`. */
  datatype VideoFields = VideoFields(
    userId: Option<Id>,
    prompt: Option<string>,
    videoUrl: Option<string>,
    status: Option<string>)

  /** One failing validator of the schema. */
  datatype FieldError = UserIdRequired | StatusNotInEnum(value: string)

  /** Every validator that fails on `f`; Mongoose reports them together. */
  function Errors(f: VideoFields): (errs: seq<FieldError>)
    ensures UserIdRequired in errs <==> f.userId.None?
    ensures forall v :: StatusNotInEnum(v) in errs <==> f.status == Some(v) && ParseStatus(v).None?
    ensures errs == [] <==> f.userId.Some? && (f.status.None? || ParseStatus(f.status.value).Some?)
  {
    (if f.userId.None? then [UserIdRequired] else [])
    + (if f.status.Some? && ParseStatus(f.status.value).None? then [StatusNotInEnum(f.status.value)] else [])
  }

  /**
   * Validation and defaults of `create`: the record is stored only when
   * every validator passes; a missing `status` becomes "processing" and both
   * timestamps are the creation time.
   */
  function Validate(f: VideoFields, id: Id, now: nat): (r: Result<Video, seq<FieldError>>)
    ensures r.Err? <==> Errors(f) != []
    ensures r.Err? ==> r.error == Errors(f)
    ensures r.Ok? ==> && r.value.id == id && Some(r.value.userId) == f.userId
                      && r.value.prompt == f.prompt && r.value.videoUrl == f.videoUrl
                      && StatusName(r.value.status) == (if f.status.Some? then f.status.value else "processing")
                      && r.value.createdAt == now && r.value.updatedAt == now
  {
    var errs := Errors(f);
    if errs != [] then Err(errs)
    else
      var status := if f.status.Some? then ParseStatus(f.status.value).value else Processing;
      Ok(Video(id, f.userId.value, f.prompt, f.videoUrl, status, now, now))
  }

  /** Creating a record with the status "pending" always fails the enum validator. */
  lemma PendingRejected(f: VideoFields, id: Id, now: nat)
    requires f.status == Some("pending")
    ensures Validate(f, id, now).Err?
    ensures StatusNotInEnum("pending") in Validate(f, id, now).error
  {
    assert ParseStatus("pending").None?;
  }

  /** Leaving `status` out of `create` stores "processing". */
  lemma DefaultIsProcessing(f: VideoFields, id: Id, now: nat)
    requires f.userId.Some? && f.status.None?
    ensures Validate(f, id, now).Ok? && Validate(f, id, now).value.status == Processing
  {
  }

  /**
   * An update document. `None` is a key whose value is `undefined`, which
   * Mongoose drops from the update, so that field keeps its value.
   */
  datatype VideoPatch = VideoPatch(videoUrl: Option<string>, status: Option<Status>)

  function Patched(v: Video, p: VideoPatch, now: nat): Video {
    v.(videoUrl := if p.videoUrl.Some? then p.videoUrl else v.videoUrl,
       status := if p.status.Some? then p.status.value else v.status,
       updatedAt := now)
  }

  /** What a patch does to one record: the fields it names, `updatedAt`, and nothing else. */
  lemma PatchedFields(v: Video, p: VideoPatch, now: nat)
    ensures var r := Patched(v, p, now);
      && r.id == v.id && r.userId == v.userId && r.prompt == v.prompt && r.createdAt == v.createdAt
      && r.updatedAt == now
      && (p.videoUrl.Some? ==> r.videoUrl == p.videoUrl) && (p.videoUrl.None? ==> r.videoUrl == v.videoUrl)
      && (p.status.Some? ==> r.status == p.status.value) && (p.status.None? ==> r.status == v.status)
  {
  }

  /** The record with id `id`, if the collection holds one. */
  function FindById(docs: seq<Video>, id: Id): (r: Option<Video>)
    ensures r.Some? ==> r.value in docs && r.value.id == id
    ensures r.None? ==> forall v :: v in docs ==> v.id != id
  {
    if docs == [] then None
    else if docs[0].id == id then Some(docs[0])
    else FindById(docs[1..], id)
  }

  /** The collection after `findByIdAndUpdate(id, p)`. */
  function UpdateById(docs: seq<Video>, id: Id, p: VideoPatch, now: nat): (r: seq<Video>)
    ensures |r| == |docs|
    ensures forall i :: 0 <= i < |docs| ==> r[i] == if docs[i].id == id then Patched(docs[i], p, now) else docs[i]
  {
    if docs == [] then []
    else [if docs[0].id == id then Patched(docs[0], p, now) else docs[0]] + UpdateById(docs[1..], id, p, now)
  }

  /** Updating the record just appended, whose id no earlier record has, patches only that record. */
  lemma UpdateFresh(docs: seq<Video>, v: Video, p: VideoPatch, now: nat)
    requires FindById(docs, v.id).None?
    ensures UpdateById(docs + [v], v.id, p, now) == docs + [Patched(v, p, now)]
  {
    var s := docs + [v];
    var r := UpdateById(s, v.id, p, now);
    forall i | 0 <= i < |docs| ensures r[i] == docs[i] {
      assert s[i] == docs[i] && docs[i] in docs;
    }
  }

  /** The collection after `findByIdAndDelete(id)`. */
  function RemoveById(docs: seq<Video>, id: Id): (r: seq<Video>)
    ensures forall v :: v in r <==> v in docs && v.id != id
    ensures |r| <= |docs|
  {
    if docs == [] then []
    else if docs[0].id == id then RemoveById(docs[1..], id)
    else [docs[0]] + RemoveById(docs[1..], id)
  }

  /** Ids are distinct and below the next id to hand out. */
  ghost predicate IdsBelow(docs: seq<Video>, next: Id) {
    && (forall i :: 0 <= i < |docs| ==> docs[i].id < next)
    && (forall i, j :: 0 <= i < j < |docs| ==> docs[i].id != docs[j].id)
  }

  /** A request the code sent to the collection. */
  datatype VideoOp = CreateOp(fields: VideoFields) | UpdateOp(id: Id, patch: VideoPatch) | DeleteOp(id: Id)

  /** The `Video` collection. `log` records every request sent to it, in order. */
  class VideoStore {
    var docs: seq<Video>
    var nextId: Id
    var log: seq<VideoOp>

    ghost predicate Valid()
      reads this
    {
      IdsBelow(docs, nextId)
    }

    constructor ()
      ensures Valid() && docs == [] && log == []
    {
      docs, nextId, log := [], 0, [];
    }

    /** `Video.create(f)`: validates, then stores the record under a fresh id. */
    method Create(f: VideoFields, now: nat) returns (r: Result<Video, seq<FieldError>>)
      requires Valid()
      modifies this
      ensures Valid()
      ensures r == Validate(f, old(nextId), now)
      ensures log == old(log) + [CreateOp(f)]
      ensures r.Ok? ==> docs == old(docs) + [r.value] && nextId == old(nextId) + 1
      ensures r.Ok? ==> FindById(old(docs), r.value.id).None?
      ensures r.Err? ==> docs == old(docs) && nextId == old(nextId)
    {
      r := Validate(f, nextId, now);
      log := log + [CreateOp(f)];
      if r.Ok? {
        docs := docs + [r.value];
        nextId := nextId + 1;
      }
    }

    /**
     * `Video.findByIdAndUpdate(id, p)`: no validator runs; the record with
     * that id, if any, is patched and the others are left as they were.
     * The result is the record as it was before the update.
     */
    method FindByIdAndUpdate(id: Id, p: VideoPatch, now: nat) returns (before: Option<Video>)
      requires Valid()
      modifies this
      ensures Valid()
      ensures before == FindById(old(docs), id)
      ensures docs == UpdateById(old(docs), id, p, now) && nextId == old(nextId)
      ensures log == old(log) + [UpdateOp(id, p)]
    {
      before := FindById(docs, id);
      docs := UpdateById(docs, id, p, now);
      log := log + [UpdateOp(id, p)];
    }

    /** `Video.findByIdAndDelete(id)`: removes the record with that id, if any, and returns it. */
    method FindByIdAndDelete(id: Id) returns (deleted: Option<Video>)
      requires Valid()
      modifies this
      ensures Valid()
      ensures deleted == FindById(old(docs), id)
      ensures docs == RemoveById(old(docs), id) && nextId == old(nextId)
      ensures log == old(log) + [DeleteOp(id)]
    {
      deleted := FindById(docs, id);
      RemoveKeepsIds(docs, id, nextId);
      docs := RemoveById(docs, id);
      log := log + [DeleteOp(id)];
    }
  }

  lemma RemoveKeepsIds(docs: seq<Video>, id: Id, next: Id)
    requires IdsBelow(docs, next)
    ensures IdsBelow(RemoveById(docs, id), next)
  {
    if docs != [] {
      var tail := docs[1..];
      assert IdsBelow(tail, next);
      RemoveKeepsIds(tail, id, next);
      var rest := RemoveById(tail, id);
      if docs[0].id != id {
        forall v | v in rest ensures v.id != docs[0].id {
          var k :| 0 <= k < |tail| && tail[k] == v;
          assert docs[k + 1] == v;
        }
        ConsIds(docs[0], rest, next);
      }
    }
  }

  lemma ConsIds(x: Video, rest: seq<Video>, next: Id)
    requires x.id < next && IdsBelow(rest, next) && forall v :: v in rest ==> v.id != x.id
    ensures IdsBelow([x] + rest, next)
  {
    var s := [x] + rest;
    forall i, j | 0 <= i < j < |s| ensures s[i].id != s[j].id {
      if i > 0 {
        assert s[i] == rest[i - 1] && s[j] == rest[j - 1];
      } else {
        assert s[j] in rest;
      }
    }
  }
}
