/**
 * The page and the routes together: what the page receives from the chat
 * route, and what a submit shows the user.
 */
module Session {
  import opened Wrappers
  import opened Text
  import opened VideoModel
  import opened UserModel
  import opened UserRoute
  import opened ChatRoute
  import opened Page

  /**
   * The response the page sees for each chat reply. Only a started
   * generation is `ok`; its body has `success` and `message` but no `url`
   * field. The 401 body carries `message`; the other errors carry only
   * `error`.
   */
  function PageSees(r: ChatReply): (res: ChatResponse)
    ensures res.Answered? && (res.ok <==> r.Started?)
    ensures res.ok ==> res.success && res.url.None?
  {
    match r
    case Started(_) => Answered(true, true, None, Some("Video Generation Started"))
    case NoUserEmail => Answered(false, false, None, Some("No user email found"))
    case _ => Answered(false, false, None, None)
  }

  /**
   * One submit from the page to the chat route as written. Whatever the
   * generator, the queue and the stores do, an accepted submit ends with
   * the apology, and no record or event is left behind.
   */
  method Submit(page: MainPage, videos: VideoStore, users: UserStore, queue: RenderQueue,
                user: Option<ClientUser>, apiKey: bool, generated: Option<string>, delivered: bool, now: nat)
    requires videos.Valid()
    modifies page, videos, queue
    ensures videos.Valid()
    ensures Trim(old(page.input)) != [] && !old(page.isLoading) ==>
      |page.msgs| == |old(page.msgs)| + 2
      && page.msgs[|page.msgs| - 1] == Message(Some(Apology), AssistantRole, false)
    ensures videos.docs == old(videos.docs) && queue.sent == old(queue.sent)
  {
    if Trim(page.input) == [] || page.isLoading {
      var _ := page.HandleSubmit(Threw);
      return;
    }
    var reply := ChatRoute.Post(videos, users, queue, ChatRequest(Some(Trim(page.input)), user), apiKey, generated, delivered, now);
    var _ := page.HandleSubmit(PageSees(reply));
  }

  /**
   * A first session on an empty database with the corrected route: the page
   * registers its user with the bare user object, which the user route
   * turns away, so the chat route finds no owner and still starts nothing.
   */
  method FirstSessionCorrected(videos: VideoStore, users: UserStore, queue: RenderQueue, u: ClientUser,
                               msg: Option<string>, apiKey: bool, generated: Option<string>, storeUp: bool,
                               delivered: bool, now: nat)
      returns (reply: ChatReply)
    requires videos.Valid() && users.Valid() && users.docs == []
    modifies videos, users, queue
    ensures users.docs == []
    ensures !reply.Started? && PageSees(reply).ok == false
  {
    var _ := PostFromPage(users, u, storeUp, now);
    reply := PostCorrected(videos, users, queue, ChatRequest(msg, Some(u)), apiKey, generated, delivered, now);
  }

  /**
   * A session with both corrections: the page registers its user as the
   * user route expects, and the chat route leaves the status to the schema
   * default. A request with a message, a key, a generated script and an
   * email then starts a generation whenever the store is up and the event
   * is queued, and the page receives an `ok` response.
   */
  method FirstSessionFixed(videos: VideoStore, users: UserStore, queue: RenderQueue, u: ClientUser,
                           msg: Option<string>, apiKey: bool, generated: Option<string>, storeUp: bool,
                           delivered: bool, now: nat)
      returns (reply: ChatReply)
    requires videos.Valid() && users.Valid()
    modifies videos, users, queue
    ensures Truthy(FirstEmail(u)) && storeUp && Truthy(msg) && apiKey && generated.Some? && delivered ==>
      reply.Started? && PageSees(reply).ok
  {
    var _ := PostFromPageCorrected(users, u, storeUp, now);
    reply := PostCorrected(videos, users, queue, ChatRequest(msg, Some(u)), apiKey, generated, delivered, now);
  }
}
