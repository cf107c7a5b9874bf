/**
 * The client page (app/page.tsx): text truncation for cards and notices,
 * the reconciliation of the fetched video list (failed videos are
 * announced, deleted and hidden), the submit handler that appends the
 * conversation, and the condition under which a card plays its video.
 */
module Page {
  import opened Wrappers
  import opened Text
  import opened UserRoute

  /** The default `maxLength` of `truncateText`. */
  const DefaultMaxLength: nat := 100

  /** The length of the prompt excerpt in a failure notice. */
  const NoticeLength: nat := 40

  /**
   * `truncateText(text, maxLength)`: the text itself when it fits,
   * otherwise its first `maxLength` characters and "...".
   */
  function TruncateText(text: string, maxLength: nat): (r: string)
    ensures |text| <= maxLength ==> r == text
    ensures |r| <= maxLength + 3
    ensures |text| > maxLength ==> |r| == maxLength + 3 && r[..maxLength] == text[..maxLength] && r[maxLength..] == "..."
  {
    if |text| <= maxLength then text else text[..maxLength] + "..."
  }

  /** Truncating a truncated text changes nothing. */
  lemma TruncateStable(text: string, maxLength: nat)
    ensures TruncateText(TruncateText(text, maxLength), maxLength) == TruncateText(text, maxLength)
  {
    if |text| > maxLength {
      var r := TruncateText(text, maxLength);
      assert r[..maxLength] == text[..maxLength];
    }
  }

  /** A video as the page receives it; a `status` field that is absent is `None`. */
  datatype ClientVideo = ClientVideo(id: string, prompt: string, videoUrl: Option<string>, status: Option<string>)

  /**
   * The caption under a video card, `truncateText(video.prompt)` with the
   * default length: a prompt of up to 100 characters is shown whole, a
   * longer one by its first 100 characters and "...".
   */
  function CardCaption(v: ClientVideo): (r: string)
    ensures |r| <= DefaultMaxLength + 3
    ensures |v.prompt| <= DefaultMaxLength ==> r == v.prompt
    ensures |v.prompt| > DefaultMaxLength ==> r == v.prompt[..DefaultMaxLength] + "..."
  {
    TruncateText(v.prompt, DefaultMaxLength)
  }

  predicate IsFailed(v: ClientVideo) {
    v.status == Some("failed")
  }

  /** `allVideos.filter(v => v.status === "failed")`. */
  function FailedVideos(s: seq<ClientVideo>): seq<ClientVideo> {
    if s == [] then [] else (if IsFailed(s[0]) then [s[0]] else []) + FailedVideos(s[1..])
  }

  /** `allVideos.filter(v => v.status !== "failed")`. */
  function KeptVideos(s: seq<ClientVideo>): seq<ClientVideo> {
    if s == [] then [] else (if IsFailed(s[0]) then [] else [s[0]]) + KeptVideos(s[1..])
  }

  /** Concatenation seen from its first element. */
  lemma ConsAppend(a: seq<ClientVideo>, b: seq<ClientVideo>)
    requires a != []
    ensures (a + b)[0] == a[0] && (a + b)[1..] == a[1..] + b
  {
  }

  /** The failed list distributes over concatenation, so it keeps the fetched order. */
  lemma {:induction false} FailedAppend(a: seq<ClientVideo>, b: seq<ClientVideo>)
    ensures FailedVideos(a + b) == FailedVideos(a) + FailedVideos(b)
  {
    if a == [] {
      assert a + b == b;
    } else {
      ConsAppend(a, b);
      FailedAppend(a[1..], b);
      var h := if IsFailed(a[0]) then [a[0]] else [];
      assert FailedVideos(a + b) == h + FailedVideos(a[1..] + b);
      assert FailedVideos(a) == h + FailedVideos(a[1..]);
    }
  }

  /** So does the kept list. */
  lemma {:induction false} KeptAppend(a: seq<ClientVideo>, b: seq<ClientVideo>)
    ensures KeptVideos(a + b) == KeptVideos(a) + KeptVideos(b)
  {
    if a == [] {
      assert a + b == b;
    } else {
      ConsAppend(a, b);
      KeptAppend(a[1..], b);
      var h := if IsFailed(a[0]) then [] else [a[0]];
      assert KeptVideos(a + b) == h + KeptVideos(a[1..] + b);
      assert KeptVideos(a) == h + KeptVideos(a[1..]);
    }
  }

  /**
   * The two lists partition the fetched list: every video lands in exactly
   * one of them, as often as it was fetched, and by its status.
   */
  lemma {:induction false} FiltersPartition(s: seq<ClientVideo>)
    ensures multiset(FailedVideos(s)) + multiset(KeptVideos(s)) == multiset(s)
    ensures forall v :: v in FailedVideos(s) <==> v in s && IsFailed(v)
    ensures forall v :: v in KeptVideos(s) <==> v in s && !IsFailed(v)
  {
    if s != [] {
      FiltersPartition(s[1..]);
      assert s == [s[0]] + s[1..];
    }
  }

  /** A side effect the page performs: an error toast, or a DELETE request for a video. */
  datatype Effect = Toast(text: string) | DeleteRequest(videoId: string)

  /** The toast for a failed video. */
  function FailureNotice(prompt: string): string {
    "\U{274C} Video generation failed for: \"" + TruncateText(prompt, NoticeLength) + "\""
  }

  /** What the reconciliation loop emits for `failed`, in order: a toast then a delete, per video. */
  function Notices(failed: seq<ClientVideo>): seq<Effect> {
    if failed == [] then []
    else
      var last := failed[|failed| - 1];
      Notices(failed[..|failed| - 1]) + [Toast(FailureNotice(last.prompt)), DeleteRequest(last.id)]
  }

  /** One more failed video adds its toast and its delete at the end. */
  lemma NoticesStep(failed: seq<ClientVideo>, i: nat)
    requires i < |failed|
    ensures Notices(failed[..i + 1]) == Notices(failed[..i]) + [Toast(FailureNotice(failed[i].prompt)), DeleteRequest(failed[i].id)]
  {
    assert failed[..i + 1][..i] == failed[..i];
  }

  /** Each failed video gets exactly one toast and one delete of its own id, at positions 2k and 2k+1. */
  lemma {:induction false} NoticesInOrder(failed: seq<ClientVideo>)
    ensures |Notices(failed)| == 2 * |failed|
    ensures forall k :: 0 <= k < |failed| ==>
      Notices(failed)[2 * k] == Toast(FailureNotice(failed[k].prompt))
      && Notices(failed)[2 * k + 1] == DeleteRequest(failed[k].id)
  {
    if failed != [] {
      var init := failed[..|failed| - 1];
      NoticesInOrder(init);
      forall k | 0 <= k < |init| ensures init[k] == failed[k] { }
    }
  }

  /** A chat message; `content` is `None` when the field it was taken from is absent. */
  datatype Role = UserRole | AssistantRole
  datatype Message = Message(content: Option<string>, role: Role, isV: bool)

  const Apology: string := "Sorry, I encountered an error. Please try again."

  /**
   * What `fetch('/api/chat')` yields: it raises (or its body is not JSON),
   * or it answers with `response.ok` and the body's `success`, `url` and
   * `message` fields.
   */
  datatype ChatResponse = Threw | Answered(ok: bool, success: bool, url: Option<string>, message: Option<string>)

  /** The body the page posts: the trimmed input and the conversation before this submit. */
  datatype ChatPost = ChatPost(msg: string, history: seq<Message>)

  /** `video.status === 'success' && video.videoUrl`. */
  predicate Plays(v: ClientVideo) {
    v.status == Some("success") && Truthy(v.videoUrl)
  }

  /** A card that plays is never one the reconciliation hides. */
  lemma PlayingIsKept(s: seq<ClientVideo>, v: ClientVideo)
    requires v in s && Plays(v)
    ensures v in KeptVideos(s) && v !in FailedVideos(s)
  {
    FiltersPartition(s);
  }

  /** The page's state. `effects` records the toasts and requests it issues, in order. */
  class MainPage {
    var msgs: seq<Message>
    var input: string
    var isLoading: bool
    var loadingVideos: bool
    var videos: seq<ClientVideo>
    var effects: seq<Effect>

    constructor ()
      ensures msgs == [] && input == [] && !isLoading && !loadingVideos && videos == [] && effects == []
    {
      msgs, input, isLoading, loadingVideos, videos, effects := [], [], false, false, [], [];
    }

    /**
     * The loop of `getVideos` over the failed videos: a toast and a DELETE
     * request for each, in order.
     */
    method AnnounceAndDelete(failed: seq<ClientVideo>)
      modifies this
      ensures effects == old(effects) + Notices(failed)
      ensures msgs == old(msgs) && input == old(input) && isLoading == old(isLoading)
      ensures videos == old(videos) && loadingVideos == old(loadingVideos)
    {
      var i := 0;
      while i < |failed|
        invariant 0 <= i <= |failed|
        invariant effects == old(effects) + Notices(failed[..i])
        invariant msgs == old(msgs) && input == old(input) && isLoading == old(isLoading)
        invariant videos == old(videos) && loadingVideos == old(loadingVideos)
      {
        NoticesStep(failed, i);
        effects := effects + [Toast(FailureNotice(failed[i].prompt)), DeleteRequest(failed[i].id)];
        i := i + 1;
      }
      assert failed[..i] == failed;
    }

    /**
     * `getVideos`. `fetched` is `None` when the request or its JSON raises,
     * and otherwise the body's `videos` field (`None` when absent, which
     * counts as an empty list).
     */
    method GetVideos(fetched: Option<Option<seq<ClientVideo>>>)
      modifies this
      ensures !loadingVideos
      ensures fetched.None? ==> videos == old(videos) && effects == old(effects)
      ensures fetched.Some? ==>
        var all := if fetched.value.Some? then fetched.value.value else [];
        videos == KeptVideos(all) && effects == old(effects) + Notices(FailedVideos(all))
      ensures msgs == old(msgs) && input == old(input) && isLoading == old(isLoading)
    {
      loadingVideos := true;
      if fetched.Some? {
        var all := if fetched.value.Some? then fetched.value.value else [];
        var failed := FailedVideos(all);
        var successful := KeptVideos(all);
        AnnounceAndDelete(failed);
        videos := successful;
      }
      loadingVideos := false;
    }

    /**
     * `handleSubmit`. A blank input or a pending request is ignored;
     * otherwise the trimmed input is appended as the user's message, the
     * chat route is called with it and the earlier messages (`reply` is its
     * outcome), and exactly one assistant message follows: the URL as a
     * video on success, the body's message otherwise, or the apology when
     * the request raised or was not ok. The returned post is what was sent.
     */
    method HandleSubmit(reply: ChatResponse) returns (sent: Option<ChatPost>)
      modifies this
      ensures Trim(old(input)) == [] || old(isLoading) ==>
        sent.None? && msgs == old(msgs) && input == old(input) && isLoading == old(isLoading)
      ensures Trim(old(input)) != [] && !old(isLoading) ==>
        && sent == Some(ChatPost(Trim(old(input)), old(msgs)))
        && |msgs| == |old(msgs)| + 2 && msgs[..|old(msgs)|] == old(msgs)
        && msgs[|old(msgs)|] == Message(Some(Trim(old(input))), UserRole, false)
        && msgs[|old(msgs)| + 1].role == AssistantRole
        && (msgs[|old(msgs)| + 1].isV <==> reply.Answered? && reply.ok && reply.success)
        && (reply.Answered? && reply.ok && reply.success ==> msgs[|old(msgs)| + 1].content == reply.url)
        && (reply.Answered? && reply.ok && !reply.success ==> msgs[|old(msgs)| + 1].content == reply.message)
        && (reply.Threw? || !reply.ok ==> msgs[|old(msgs)| + 1].content == Some(Apology))
        && input == [] && !isLoading
      ensures videos == old(videos) && loadingVideos == old(loadingVideos) && effects == old(effects)
    {
      if Trim(input) == [] || isLoading {
        return None;
      }
      var text := Trim(input);
      var history := msgs;
      msgs := msgs + [Message(Some(text), UserRole, false)];
      input := [];
      isLoading := true;
      sent := Some(ChatPost(text, history));
      if reply.Threw? || !reply.ok {
        msgs := msgs + [Message(Some(Apology), AssistantRole, false)];
      } else if reply.success {
        msgs := msgs + [Message(reply.url, AssistantRole, true)];
      } else {
        msgs := msgs + [Message(reply.message, AssistantRole, false)];
      }
      isLoading := false;
    }
  }
}
