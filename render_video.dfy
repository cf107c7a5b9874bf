/**
 * The `render-video` job (inngest/functions/renderVideo.ts): one request to
 * the renderer, then one write of the outcome to the video record the
 * event names.
 */
module RenderVideo {
  import opened Wrappers
  import opened VideoModel

  /** The event `video/render.requested`. */
  datatype RenderEvent = RenderEvent(script: string, videoId: Id)

  /** The body posted to the renderer. */
  datatype RenderRequest = RenderRequest(script: string, filename: string)

  const OutputName: string := "Video"

  /**
   * The renderer's reply. `success` is the truthiness of its `success`
   * field; a field that is absent is `None`.
   */
  datatype RendererReply = RendererReply(success: bool, videoFilename: Option<string>, publicUrl: Option<string>)

  /** `res?.success && res.video_filename`. */
  predicate Rendered(res: RendererReply) {
    res.success && res.videoFilename.Some? && res.videoFilename.value != ""
  }

  /** The update the handler sends: the public URL and "success", or "" and "failed". */
  function OutcomePatch(res: RendererReply): VideoPatch {
    if Rendered(res) then VideoPatch(res.publicUrl, Some(Success))
    else VideoPatch(Some(""), Some(Failed))
  }

  /** How the job ends: it returns `{status: "done"}`, or throws "Video rendering failed". */
  datatype JobEnd = Done | RenderingFailed

  /**
   * The handler. `res` is the renderer's reply to `req`; the handler reads
   * nothing else before it writes.
   */
  method Handle(store: VideoStore, ev: RenderEvent, res: RendererReply, now: nat)
      returns (req: RenderRequest, end: JobEnd)
    requires store.Valid()
    modifies store
    ensures store.Valid()
    ensures req == RenderRequest(ev.script, OutputName)
    ensures store.log == old(store.log) + [UpdateOp(ev.videoId, OutcomePatch(res))]
    ensures store.docs == UpdateById(old(store.docs), ev.videoId, OutcomePatch(res), now)
    ensures end == Done <==> Rendered(res)
  {
    req := RenderRequest(ev.script, OutputName);
    if Rendered(res) {
      var _ := store.FindByIdAndUpdate(ev.videoId, VideoPatch(res.publicUrl, Some(Success)), now);
      end := Done;
    } else {
      var _ := store.FindByIdAndUpdate(ev.videoId, VideoPatch(Some(""), Some(Failed)), now);
      end := RenderingFailed;
    }
  }

  /**
   * The record the event names ends in "success" exactly when the renderer
   * reported a file, whatever status it had before: there is no guard
   * against a record that is already finished. On success its URL becomes
   * the public URL, or stays as it was when the reply has none; on failure
   * it becomes "".
   */
  lemma TargetRecord(docs: seq<Video>, ev: RenderEvent, res: RendererReply, now: nat, i: nat)
    requires i < |docs| && docs[i].id == ev.videoId
    ensures var after := UpdateById(docs, ev.videoId, OutcomePatch(res), now)[i];
      && after.status == (if Rendered(res) then Success else Failed)
      && (Rendered(res) && res.publicUrl.Some? ==> after.videoUrl == res.publicUrl)
      && (Rendered(res) && res.publicUrl.None? ==> after.videoUrl == docs[i].videoUrl)
      && (!Rendered(res) ==> after.videoUrl == Some(""))
      && after.updatedAt == now && after.id == docs[i].id && after.userId == docs[i].userId
      && after.prompt == docs[i].prompt && after.createdAt == docs[i].createdAt
  {
    PatchedFields(docs[i], OutcomePatch(res), now);
  }

  /** No record other than the one the event names changes. */
  lemma OthersUnchanged(docs: seq<Video>, ev: RenderEvent, res: RendererReply, now: nat, i: nat)
    requires i < |docs| && docs[i].id != ev.videoId
    ensures UpdateById(docs, ev.videoId, OutcomePatch(res), now)[i] == docs[i]
  {
  }

  /** Whether the job succeeds does not depend on the reply's public URL. */
  lemma PublicUrlIrrelevant(res: RendererReply, url: Option<string>)
    ensures Rendered(res) <==> Rendered(res.(publicUrl := url))
    ensures OutcomePatch(res).status == OutcomePatch(res.(publicUrl := url)).status
  {
  }
}
