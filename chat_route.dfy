/**
 * `POST /api/chat` (app/api/chat/route.ts:128-227), from the checks on the
 * request to the reply: the generated script is normalised, a video record
 * is created for the requesting user, and a render event naming it is
 * queued; when queueing fails the record is marked failed.
 *
 * The script generation itself is an input: `generated` is the model's text,
 * or `None` when the call raised.
 */
module ChatRoute {
  import opened Wrappers
  import opened ManimFix
  import opened VideoModel
  import opened UserModel
  import opened UserRoute
  import opened RenderVideo

  /** The parts of the request body the route reads after generation. */
  datatype ChatRequest = ChatRequest(msg: Option<string>, user: Option<ClientUser>)

  /** The route's replies, by the error text or the success it reports. */
  datatype ChatReply =
    | MessageNotFound
    | ApiKeyNotFound
    | NoUserEmail
    | Started(videoId: Id)
    | QueueFailed
    | GenerationFailed

  /** The HTTP status of each reply; only a started generation is 200. */
  function HttpStatus(r: ChatReply): (code: nat)
    ensures code == 200 <==> r.Started?
    ensures code == 400 <==> r.MessageNotFound? || r.ApiKeyNotFound?
    ensures code == 401 <==> r.NoUserEmail?
    ensures code == 500 <==> r.QueueFailed? || r.GenerationFailed?
  {
    match r
    case MessageNotFound => 400
    case ApiKeyNotFound => 400
    case NoUserEmail => 401
    case Started(_) => 200
    case QueueFailed => 500
    case GenerationFailed => 500
  }

  /** `user?.emailAddresses?.[0]?.emailAddress`. */
  function RequestEmail(req: ChatRequest): (r: Option<string>)
    ensures r.Some? <==> req.user.Some? && |req.user.value.emailAddresses| > 0
    ensures r.Some? ==> r.value == req.user.value.emailAddresses[0]
  {
    if req.user.Some? then FirstEmail(req.user.value) else None
  }

  /** The request gets past every check before the store: a message, a key, a script and an email. */
  predicate ReachesStore(req: ChatRequest, apiKey: bool, generated: Option<string>) {
    Truthy(req.msg) && apiKey && generated.Some? && Truthy(RequestEmail(req))
  }

  /**
   * The checks made before the store is touched, in the route's order: a
   * missing or empty message, a missing API key, a generation that raised,
   * and a request without an email. `None` when all pass. An early reply
   * is never a success, and its status says which check failed: 400 for
   * the message (checked first) or the key, 500 for the generation, 401 for
   * the email.
   */
  function EarlyReply(req: ChatRequest, apiKey: bool, generated: Option<string>): (r: Option<ChatReply>)
    ensures r.None? <==> ReachesStore(req, apiKey, generated)
    ensures r.Some? ==> HttpStatus(r.value) != 200
    ensures r == Some(MessageNotFound) <==> !Truthy(req.msg)
    ensures (r.Some? && HttpStatus(r.value) == 400) <==> !Truthy(req.msg) || !apiKey
    ensures (r.Some? && HttpStatus(r.value) == 401) <==>
      Truthy(req.msg) && apiKey && generated.Some? && !Truthy(RequestEmail(req))
    ensures (r.Some? && HttpStatus(r.value) == 500) <==> Truthy(req.msg) && apiKey && generated.None?
  {
    if !Truthy(req.msg) then Some(MessageNotFound)
    else if !apiKey then Some(ApiKeyNotFound)
    else if generated.None? then Some(GenerationFailed)
    else if !Truthy(RequestEmail(req)) then Some(NoUserEmail)
    else None
  }

  /** The status the route writes on creation. */
  const PendingStatus: Option<string> := Some("pending")

  /** The fields passed to `Video.create`: the owner's id if there is one, the message, "" and `status`. */
  function NewVideoFields(owner: Option<User>, msg: string, status: Option<string>): VideoFields {
    VideoFields(if owner.Some? then Some(owner.value.id) else None, Some(msg), Some(""), status)
  }

  /** The fields the route creates the record with, for a request that reaches the store. */
  function CreatedFields(users: seq<User>, req: ChatRequest, status: Option<string>): VideoFields
    requires Truthy(req.msg) && Truthy(RequestEmail(req))
  {
    NewVideoFields(FindByEmail(users, RequestEmail(req).value), req.msg.value, status)
  }

  /** The patch sent when queueing fails: `{status: "failed"}`. */
  const MarkFailed: VideoPatch := VideoPatch(None, Some(Failed))

  /** The Inngest client: the events handed over so far. */
  class RenderQueue {
    var sent: seq<RenderEvent>

    constructor ()
      ensures sent == []
    {
      sent := [];
    }

    /** `inngest.send`; `delivered` is false when the call raises, and then nothing is queued. */
    method Send(ev: RenderEvent, delivered: bool) returns (ok: bool)
      modifies this
      ensures ok == delivered
      ensures sent == old(sent) + (if delivered then [ev] else [])
    {
      ok := delivered;
      if delivered {
        sent := sent + [ev];
      }
    }
  }

  /**
   * What the store phase leaves behind, from the collection, log, next id
   * and queue it started with: a record that fails validation is not
   * stored and the reply is "Failed to generate Manim script"; a stored
   * record whose event is queued is left as created and the reply names
   * it; when queueing fails the record is marked failed and the reply is
   * "Failed to queue video generation".
   */
  ghost predicate StoreOutcome(f: VideoFields, script: string, delivered: bool, now: nat,
                               docs0: seq<Video>, log0: seq<VideoOp>, next0: Id, sent0: seq<RenderEvent>,
                               reply: ChatReply, docs: seq<Video>, log: seq<VideoOp>, sent: seq<RenderEvent>)
  {
    var v := Validate(f, next0, now);
    && (v.Err? ==>
          reply == GenerationFailed && docs == docs0 && log == log0 + [CreateOp(f)] && sent == sent0)
    && (v.Ok? && delivered ==>
          && reply == Started(v.value.id)
          && docs == docs0 + [v.value] && log == log0 + [CreateOp(f)]
          && sent == sent0 + [RenderEvent(script, v.value.id)])
    && (v.Ok? && !delivered ==>
          && reply == QueueFailed
          && docs == docs0 + [Patched(v.value, MarkFailed, now)]
          && log == log0 + [CreateOp(f), UpdateOp(v.value.id, MarkFailed)]
          && sent == sent0)
  }

  /**
   * The store phase: create the record from `f`, queue the event naming it
   * with `script`, and mark the record failed when queueing fails.
   */
  method CreateAndQueue(videos: VideoStore, queue: RenderQueue, f: VideoFields, script: string,
                        delivered: bool, now: nat)
      returns (reply: ChatReply)
    requires videos.Valid()
    modifies videos, queue
    ensures videos.Valid()
    ensures StoreOutcome(f, script, delivered, now,
                         old(videos.docs), old(videos.log), old(videos.nextId), old(queue.sent),
                         reply, videos.docs, videos.log, queue.sent)
  {
    var created := videos.Create(f, now);
    if created.Err? {
      return GenerationFailed;
    }
    reply := QueueOrMarkFailed(videos, queue, old(videos.docs), created.value, script, delivered, now);
  }

  /**
   * After `video` was stored last: queue the event naming it, or, when
   * that fails, mark it failed.
   */
  method QueueOrMarkFailed(videos: VideoStore, queue: RenderQueue, ghost docs0: seq<Video>, video: Video,
                           script: string, delivered: bool, now: nat)
      returns (reply: ChatReply)
    requires videos.Valid() && videos.docs == docs0 + [video] && FindById(docs0, video.id).None?
    modifies videos, queue
    ensures videos.Valid()
    ensures delivered ==>
      && reply == Started(video.id) && videos.docs == old(videos.docs) && videos.log == old(videos.log)
      && queue.sent == old(queue.sent) + [RenderEvent(script, video.id)]
    ensures !delivered ==>
      && reply == QueueFailed && videos.docs == docs0 + [Patched(video, MarkFailed, now)]
      && videos.log == old(videos.log) + [UpdateOp(video.id, MarkFailed)] && queue.sent == old(queue.sent)
  {
    var queued := queue.Send(RenderEvent(script, video.id), delivered);
    if queued {
      return Started(video.id);
    }
    UpdateFresh(docs0, video, MarkFailed, now);
    var _ := videos.FindByIdAndUpdate(video.id, MarkFailed, now);
    reply := QueueFailed;
  }

  /**
   * The route, with the status it writes on creation as a parameter.
   * `apiKey` says whether the key is configured, `generated` is the model's
   * text (`None` when generation raised), `delivered` whether `inngest.send`
   * succeeds, and `now` is the clock. The user store is only read.
   */
  method PostWith(videos: VideoStore, users: UserStore, queue: RenderQueue, req: ChatRequest,
                  apiKey: bool, generated: Option<string>, delivered: bool, now: nat, status: Option<string>)
      returns (reply: ChatReply)
    requires videos.Valid()
    modifies videos, queue
    ensures videos.Valid()
    ensures EarlyReply(req, apiKey, generated).Some? ==>
      && reply == EarlyReply(req, apiKey, generated).value
      && videos.docs == old(videos.docs) && videos.log == old(videos.log) && queue.sent == old(queue.sent)
    ensures EarlyReply(req, apiKey, generated).None? ==>
      StoreOutcome(CreatedFields(users.docs, req, status), FixManimScript(generated.value), delivered, now,
                   old(videos.docs), old(videos.log), old(videos.nextId), old(queue.sent),
                   reply, videos.docs, videos.log, queue.sent)
  {
    var early := EarlyReply(req, apiKey, generated);
    if early.Some? {
      return early.value;
    }
    var cleanScript := FixManimScript(generated.value);
    var email := RequestEmail(req);
    var owner := users.FindOne(email.value);
    reply := CreateAndQueue(videos, queue, NewVideoFields(owner, req.msg.value, status), cleanScript, delivered, now);
  }

  /**
   * The route as written, creating the record with status "pending". The
   * enum rejects that value, so no request ever starts a generation: every
   * request that reaches the store ends in "Failed to generate Manim
   * script", and no record is stored and no event queued.
   */
  method Post(videos: VideoStore, users: UserStore, queue: RenderQueue, req: ChatRequest,
              apiKey: bool, generated: Option<string>, delivered: bool, now: nat)
      returns (reply: ChatReply)
    requires videos.Valid()
    modifies videos, queue
    ensures videos.Valid()
    ensures !reply.Started? && !reply.QueueFailed?
    ensures !ReachesStore(req, apiKey, generated) ==> Some(reply) == EarlyReply(req, apiKey, generated)
    ensures ReachesStore(req, apiKey, generated) ==> reply == GenerationFailed
    ensures videos.docs == old(videos.docs) && queue.sent == old(queue.sent)
  {
    ghost var id := videos.nextId;
    reply := PostWith(videos, users, queue, req, apiKey, generated, delivered, now, PendingStatus);
    if ReachesStore(req, apiKey, generated) {
      PendingRejected(CreatedFields(users.docs, req, PendingStatus), id, now);
    }
  }

  /**
   * The route with `status` left out of `create`, so the schema default
   * "processing" applies. A generation starts exactly when the request
   * reaches the store, its email belongs to a stored user and the event is
   * queued; the record it creates is "processing", holds the message and
   * an empty URL, and the queued event names it and carries the normalised
   * script.
   */
  method PostCorrected(videos: VideoStore, users: UserStore, queue: RenderQueue, req: ChatRequest,
                       apiKey: bool, generated: Option<string>, delivered: bool, now: nat)
      returns (reply: ChatReply)
    requires videos.Valid()
    modifies videos, queue
    ensures videos.Valid()
    ensures reply.Started? <==>
      ReachesStore(req, apiKey, generated) && FindByEmail(users.docs, RequestEmail(req).value).Some? && delivered
    ensures reply.Started? ==>
      && |videos.docs| == |old(videos.docs)| + 1
      && videos.docs[..|old(videos.docs)|] == old(videos.docs)
      && var v := videos.docs[|old(videos.docs)|];
      && v.id == reply.videoId && v.status == Processing && v.prompt == req.msg && v.videoUrl == Some("")
      && v.userId == FindByEmail(users.docs, RequestEmail(req).value).value.id
      && queue.sent == old(queue.sent) + [RenderEvent(FixManimScript(generated.value), v.id)]
    ensures reply.QueueFailed? ==>
      && |videos.docs| == |old(videos.docs)| + 1
      && videos.docs[..|old(videos.docs)|] == old(videos.docs)
      && videos.docs[|old(videos.docs)|].status == Failed
      && queue.sent == old(queue.sent)
  {
    ghost var id := videos.nextId;
    ghost var docs0 := videos.docs;
    reply := PostWith(videos, users, queue, req, apiKey, generated, delivered, now, None);
    if ReachesStore(req, apiKey, generated) {
      var f := CreatedFields(users.docs, req, None);
      if f.userId.Some? {
        DefaultIsProcessing(f, id, now);
        assert videos.docs[..|docs0|] == docs0;
      }
    }
  }
}
