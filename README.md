# Prompt-to-video pipeline: a Dafny model

The modelled system turns a chat message into a rendered Manim animation.

- `POST /api/chat` checks the request and asks a generative model for a Manim script. It normalises that script with `fixManimScript`, creates a `Video` record for the requesting user and queues a `video/render.requested` event.
- The `render-video` job posts the script to the renderer. It then writes the outcome to the record: "success" with the public URL, or "failed" with an empty URL.
- The client page lists the user's videos. It announces each failed video, deletes it and hides it. It appends the conversation on each submit, and it plays a card only when the video succeeded and has a URL.
- `POST /api/user` finds the user by the first email address of the posted Clerk user, or creates one.
- `POST /api/videos` lists the videos of the user with the posted email, newest first.

## Module layout

| Dafny module | What it holds |
|---|---|
| `Text` | White space, `trim` and `includes` on `seq<char>` |
| `Patterns` | The regular expressions the normaliser uses (`a\s*b`), their matcher, and global `replace` |
| `ManimFix` | `fixManimScript` and what its output is guaranteed to lack |
| `ManimCases` | Concrete rewrites and rule-order facts |
| `VideoModel` | The `Video` schema, its validators and defaults, and the collection as a class (`create`, `findByIdAndUpdate`, `findByIdAndDelete`) |
| `UserModel` | The `User` schema, its unique email index, and the collection as a class |
| `UserRoute` | `POST /api/user` |
| `VideosRoute` | `POST /api/videos` |
| `RenderVideo` | The render job |
| `ChatRoute` | `POST /api/chat`, from the request checks to the reply |
| `Page` | The page's state as a class: `getVideos`, `handleSubmit`, `truncateText` and the play condition |
| `Session` | The page and the routes together |

Several things become parameters of the model:

- the generated script;
- whether the API key is configured;
- the renderer's reply;
- whether `inngest.send` succeeds;
- whether the user store is reachable;
- the clock.

Document ids are natural numbers handed out in order.

## Model

| member | source | states |
|---|---|---|
| Text.Trim | app/api/chat/route.ts:109 | The result is a window of the input from which only white space was cut, at both ends, and it neither starts nor ends with white space. |
| Text.TrimFixed | app/api/chat/route.ts:109 | A string that neither starts nor ends with white space is its own trim. |
| Text.TrimIdempotent | app/api/chat/route.ts:109 | Trimming a trimmed string changes nothing. |
| Text.ContainsAt | app/api/chat/route.ts:110 | `includes` holds whenever the text occurs at some position. |
| Text.ContainsWitness | app/api/chat/route.ts:110 | Conversely, when `includes` holds, a position where the text occurs exists. |
| Patterns.MatchLenSound | app/api/chat/route.ts:109-123 | Every match length the greedy matcher reports is a match of the regular expression. |
| Patterns.MatchLenExact | app/api/chat/route.ts:109-123 | For the expressions the normaliser uses, the matcher finds length n if and only if the expression matches the first n characters. |
| Patterns.MatchExtends | app/api/chat/route.ts:109-123 | A match does not depend on the text that follows it. |
| Patterns.LitMatchesItself | app/api/chat/route.ts:109-123 | A literal expression matches every text it starts. |
| Patterns.SpacedMatch | app/api/chat/route.ts:114 | An expression `p0\s*p1…` matches its pieces joined by any runs of white space. |
| Patterns.ReplaceNoMatch | app/api/chat/route.ts:109-123 | A global replace with no match anywhere copies the text. |
| Patterns.ReplaceCopiesPrefix | app/api/chat/route.ts:109-123 | A global replace copies the text before the leftmost match unchanged. |
| Patterns.ReplaceSplit | app/api/chat/route.ts:109-123 | A global replace copies the text before the leftmost match, puts the replacement in place of the match, and resumes after it. |
| Patterns.ReplaceAbsent | app/api/chat/route.ts:109-123 | A replace leaves no occurrence of q and creates none, when q is itself a match (or absent) and the replacement cannot splice a new q together. |
| Patterns.ReplaceWithoutChar | app/api/chat/route.ts:109-123 | A replace whose expression needs a character the text lacks changes nothing. |
| Patterns.ReplaceAbsentLiteral | app/api/chat/route.ts:109-123 | Replacing a literal that does not occur changes nothing. |
| Patterns.SpacedRewrite | app/api/chat/route.ts:114 | A text that starts with a match of `p0\s*p1…` becomes the replacement followed by the replaced rest. |
| ManimFix.StripFences | app/api/chat/route.ts:109 | The result contains no code fence. |
| ManimFix.NoBackTicks | app/api/chat/route.ts:109 | A script without backticks is left as it is by fence stripping. |
| ManimFix.EnsureImport | app/api/chat/route.ts:110-112 | The result imports Manim. A script that already does is unchanged; any other script gets the header in front. |
| ManimFix.FixManimScript | app/api/chat/route.ts:107-126 | The output holds no code fence and none of `ShowCreation(`, `TextMobject(`, `MathTex(`, `Tex(`, `DecimalNumber(` and `labels=True`. |
| ManimFix.ApplyRulesKeepsAbsent | app/api/chat/route.ts:113-123 | The substitution chain cannot create a text that no replacement can splice together. |
| ManimFix.RuleEliminates | app/api/chat/route.ts:113-123 | A rule whose expression matches q removes every q, and none comes back when no later replacement can splice one. |
| ManimFix.EliminatedAt | app/api/chat/route.ts:113-123 | The same, for the rule at a given position of the chain. |
| ManimFix.FencesStayOut | app/api/chat/route.ts:113-123 | A fence-free script stays fence-free through the chain. |
| ManimFix.CallsEliminated | app/api/chat/route.ts:113-123 | Whatever the input, none of the six rewritten calls and keywords survives the chain. |
| ManimFix.ShowCreationEliminated | app/api/chat/route.ts:115 | No `ShowCreation(` survives the chain. |
| ManimFix.TextMobjectEliminated | app/api/chat/route.ts:116 | No `TextMobject(` survives the chain. |
| ManimFix.TexEliminated | app/api/chat/route.ts:118 | No `Tex(` survives the chain; the later rules write none. |
| ManimFix.DecimalNumberEliminated | app/api/chat/route.ts:122 | No `DecimalNumber(` survives the chain. |
| ManimFix.LabelsTrueEliminated | app/api/chat/route.ts:121 | No `labels=True` survives the chain. |
| ManimFix.TrimKeepsAbsent | app/api/chat/route.ts:109 | Trimming cannot create an occurrence. |
| ManimFix.PreparedFenceFree | app/api/chat/route.ts:109-112 | The script is fence-free when it enters the chain. |
| ManimFix.HeaderKept | app/api/chat/route.ts:113-123 | The chain leaves the import header alone, so an output that got the header still begins with it. |
| ManimFix.HeaderAdded | app/api/chat/route.ts:107-126 | The output is the header followed by the rewritten script exactly when the stripped, trimmed script does not import Manim. Otherwise it is the rewritten script alone. |
| ManimFix.FixAddsHeader | app/api/chat/route.ts:107-126 | A clean script without an import comes out as the header followed by its substitutions. |
| ManimFix.FixKeepsImport | app/api/chat/route.ts:107-126 | A clean script with an import only goes through the substitutions. |
| ManimFix.FillOpacityRewritten | app/api/chat/route.ts:114 | `fill_opacity` followed by any white space and `=` becomes `opacity=`. |
| ManimFix.RootKeyRewritten | app/api/chat/route.ts:119-120 | `'root'` and `"root"` followed by any white space and `:` become the `root_vertex` key, keeping their quotes. |
| ManimFix.SpacedLabelsRewritten | app/api/chat/route.ts:123 | `labels = True`, with any white space, becomes `labels=False`. |
| ManimCases.MathTexBeforeTex | app/api/chat/route.ts:117-118 | In the chain's order `MathTex(` becomes `Text(`. In the other order it would become `MathText(`. |
| ManimCases.TexInsideMathTex | app/api/chat/route.ts:118 | The `Tex(` rule matches inside `MathTex(`. |
| ManimCases.TextSurvivesTex | app/api/chat/route.ts:118 | The `Tex(` rule leaves `Text(` alone. |
| ManimCases.MathTextSurvives | app/api/chat/route.ts:117 | The `MathTex(` rule leaves `MathText(` alone. |
| ManimCases.MathTexChain | app/api/chat/route.ts:113-123 | The whole chain turns `MathTex(` + w into `Text(` + w for ordinary text w. |
| ManimCases.FillOpacityLeads | app/api/chat/route.ts:114 | The `fill_opacity` rule turns `fill_opacity=` + w into `opacity=` + w for ordinary text w. |
| ManimCases.FillFillLeads | app/api/chat/route.ts:114 | On `fill_fill_opacity=` + w the same rule removes only the inner `fill_`, leaving `fill_opacity=` + w. |
| ManimCases.FillOpacityChain | app/api/chat/route.ts:113-123 | The whole chain turns `fill_opacity=` + w into `opacity=` + w. |
| ManimCases.FillFillChain | app/api/chat/route.ts:113-123 | The whole chain turns `fill_fill_opacity=` + w into `fill_opacity=` + w. |
| ManimCases.FirstPass | app/api/chat/route.ts:107-126 | The normaliser returns the header followed by `fill_opacity=` + w for `fill_fill_opacity=` + w. |
| ManimCases.SecondPass | app/api/chat/route.ts:107-126 | Given that output again, it returns the header followed by `opacity=` + w. |
| ManimCases.NotIdempotent | app/api/chat/route.ts:107-126 | For every ordinary w (such as "1"), a second pass over the output for `fill_fill_opacity=` + w changes it, so the normaliser is not idempotent. |
| ManimCases.RuleSkips | app/api/chat/route.ts:113-123 | A rule whose literal needs a character the text lacks changes nothing. |
| ManimCases.QuietRange | app/api/chat/route.ts:113-123 | Rules that each leave the text alone can be dropped from the chain. |
| ManimCases.QuietAfterFirst | app/api/chat/route.ts:115-123 | Rules 2 to 10 leave alone a text without the characters they look for. |
| VideoModel.ParseStatus | models/Video.ts:15-17 | The enum admits exactly "processing", "success" and "failed", each naming its own status. |
| VideoModel.StatusNameParses | models/Video.ts:15-17 | Every status is admitted under its own name. |
| VideoModel.Errors | models/Video.ts:4-19 | `userId` required fails exactly when it is missing, and the enum fails exactly on a given status outside it; no error means both pass. |
| VideoModel.Validate | models/Video.ts:3-20 | `create` fails exactly when a validator fails, with those errors. Otherwise the record holds the fields given, status defaults to "processing", and both timestamps are the creation time. |
| VideoModel.PendingRejected | models/Video.ts:15-19 | A record created with status "pending" is always rejected by the enum. |
| VideoModel.DefaultIsProcessing | models/Video.ts:18 | A record created with an owner and no status is stored as "processing". |
| VideoModel.PatchedFields | inngest/functions/renderVideo.ts:39-48 | An update changes the fields it names and `updatedAt`, and nothing else; a key set to `undefined` keeps its value. |
| VideoModel.FindById | inngest/functions/renderVideo.ts:39 | The record found has the id, and none is found only when no record has it. |
| VideoModel.UpdateById | inngest/functions/renderVideo.ts:39-48 | The records with the id are patched, the others are unchanged, and none is added or removed. |
| VideoModel.UpdateFresh | app/api/chat/route.ts:219-220 | Updating the record just created patches that record and no other. |
| VideoModel.RemoveById | app/page.tsx:74-76 | Exactly the records without the id remain. |
| VideoModel.VideoStore.Create | models/Video.ts:3-20 | The reply is the validation result. A valid record is appended under a fresh id, an invalid one stores nothing, and ids stay distinct. |
| VideoModel.VideoStore.FindByIdAndUpdate | inngest/functions/renderVideo.ts:39-48 | Returns the record as it was, applies the patch without validation and keeps ids distinct. |
| VideoModel.VideoStore.FindByIdAndDelete | app/page.tsx:74-76 | The DELETE the page issues reaches `findByIdAndDelete` (app/api/video/[id]/route.ts, line 10): it returns the deleted record, if any, and removes exactly the records with that id. |
| UserModel.ValidateUser | models/User.ts:5-18 | `create` fails exactly when the email is missing or empty. Absent names take "Buudy" and "Buddy"; given names, even "", are kept. |
| UserModel.FindByEmail | app/api/user/route.ts:28 | The user found has the email, and none is found only when no user has it. |
| UserModel.WithEmail | models/User.ts:5-9 | Exactly the users with the email. |
| UserModel.AtMostOne | models/User.ts:8 | Under the unique index at most one user has a given email, and it is the one `findOne` finds. |
| UserModel.CreateUser | models/User.ts:5-18 | `create` stores a valid user only when no user has its email. A failure is a validation error or a taken email. |
| UserModel.UserStore.FindOne | app/api/user/route.ts:28 | Returns the user with the email, if any. |
| UserModel.UserStore.Create | app/api/user/route.ts:34-38 | Appends the created user under a fresh id, or changes nothing; ids and emails stay distinct. |
| UserModel.AppendUnique | models/User.ts:8 | Appending a user whose email and id are new keeps emails and ids distinct. |
| UserRoute.Post | app/api/user/route.ts:5-47 | No `user` gives "No user provided" and no email gives "No email provided". Otherwise an unreachable store fails, a known email gives "User already exists", and a new one is created with the names or "". Only a creation changes the store, and after a success exactly one user has the email. |
| UserRoute.PostFromPage | app/page.tsx:89-93 | The page's registration always gets "No user provided" and stores nobody. |
| UserRoute.PostFromPageCorrected | app/page.tsx:89-93 | With the user under `user`, a user with an email is found or created whenever the store is up, and is then the only one with that email. |
| UserRoute.NameDefaultsUnused | app/api/user/route.ts:34-38 | The schema's name defaults never apply here: a user posted without names is stored with "" for both. |
| VideosRoute.OwnedExactly | app/api/videos/route.ts:18-20 | The filter keeps each of the owner's videos as often as it is stored, and no other video. |
| VideosRoute.NewestFirstOrdered | app/api/videos/route.ts:20-22 | In the sorted list, `createdAt` never increases between any two positions. |
| VideosRoute.InsertByDate | app/api/videos/route.ts:20-22 | Inserting into a newest-first list keeps it newest first and adds exactly the video. |
| VideosRoute.SortNewestFirst | app/api/videos/route.ts:20-22 | The result is newest first and a permutation of the input. |
| VideosRoute.OwnerFilter | app/api/videos/route.ts:18-19 | With a found user, exactly that user's videos pass, each as often as it is stored. With none, the `undefined` key is dropped and every video passes. |
| VideosRoute.ListVideos | app/api/videos/route.ts:5-27 | As written: an empty address list crashes and an empty email gives "No user email found". Otherwise the list is newest first: the owner's videos when a user has the email, and every stored video when none does. |
| VideosRoute.StrangerSeesAll | app/api/videos/route.ts:16-22 | As written, an email that no user has lists exactly the stored videos, whoever owns them. |
| VideosRoute.ListVideosCorrected | app/api/videos/route.ts:5-27 | As intended: the same replies, except that an email no user has lists nothing. With a user, the reply is the one the route gives. |
| VideosRoute.ListedAreTheOwners | app/api/videos/route.ts:16-22 | With the correction, a video is listed exactly when it is stored and belongs to the user with the posted email. |
| RenderVideo.Handle | inngest/functions/renderVideo.ts:16-53 | Posts the script with filename "Video", writes the outcome patch to the record the event names, and ends "done" exactly when the render succeeded. |
| RenderVideo.TargetRecord | inngest/functions/renderVideo.ts:36-48 | The named record ends "success" exactly when the renderer reported a file, whatever its earlier status. Its URL becomes the public URL (or is kept when there is none) or "". Owner, prompt and creation time are kept. |
| RenderVideo.OthersUnchanged | inngest/functions/renderVideo.ts:39-48 | No other record changes. |
| RenderVideo.PublicUrlIrrelevant | inngest/functions/renderVideo.ts:36-37 | Whether the job succeeds does not depend on the public URL. |
| ChatRoute.HttpStatus | app/api/chat/route.ts:136-226 | Only a started generation is 200. A missing message or key is 400, a missing email 401, and a failed generation or queue 500. |
| ChatRoute.RequestEmail | app/api/chat/route.ts:187 | An email exactly when the request has a user with an address, and then it is the first address. |
| ChatRoute.EarlyReply | app/api/chat/route.ts:136-191 | No early reply exactly when every check passes. An early reply is never 200: it is 400 for a missing message (checked first) or key, 500 for a failed generation, and 401 for a missing email. |
| ChatRoute.RenderQueue.Send | app/api/chat/route.ts:202-209 | The event is queued exactly when the send succeeds. |
| ChatRoute.CreateAndQueue | app/api/chat/route.ts:195-221 | An invalid record: nothing is stored and the reply is a generation failure. A stored record whose event is queued: it stays as created and the reply names it. A failed send: the record is marked "failed" and the reply is a queue failure. |
| ChatRoute.QueueOrMarkFailed | app/api/chat/route.ts:202-221 | After creation, either the event naming the record is queued or the record alone is marked "failed". |
| ChatRoute.PostWith | app/api/chat/route.ts:128-227 | An early check that applies is the reply and nothing changes. Otherwise the store phase runs with the normalised script and the fields built from the request and the user found by its email. |
| ChatRoute.Post | app/api/chat/route.ts:128-200 | A request that fails a check gets that check's early reply. As written, the route never starts a generation: every request that reaches the store gets "Failed to generate Manim script", and nothing is stored or queued. |
| ChatRoute.PostCorrected | app/api/chat/route.ts:195-215 | With the status left to the schema, a generation starts exactly when the checks pass, the email belongs to a stored user and the event is queued. The new record is "processing" with the message and an empty URL, and the event carries the normalised script and the record's id. A failed send leaves the new record "failed". |
| Page.TruncateText | app/page.tsx:167-170 | A text that fits is returned as is. A longer one becomes its first `maxLength` characters and "...". |
| Page.CardCaption | app/page.tsx:189 | A card shows a prompt of up to 100 characters whole, and a longer one as its first 100 characters and "...", never more than 103 characters. |
| Page.TruncateStable | app/page.tsx:167-170 | Truncating a truncated text changes nothing. |
| Page.FailedAppend | app/page.tsx:67 | The failed filter distributes over concatenation, so it keeps the fetched order. |
| Page.KeptAppend | app/page.tsx:68 | The same for the kept filter. |
| Page.FiltersPartition | app/page.tsx:67-68 | Every fetched video lands in exactly one of the two lists, by its status, as often as it was fetched. |
| Page.NoticesStep | app/page.tsx:71-77 | One more failed video adds its toast and then its delete. |
| Page.NoticesInOrder | app/page.tsx:71-77 | Each failed video gets one toast with its truncated prompt and one DELETE of its own id, in order. |
| Page.PlayingIsKept | app/page.tsx:174 | A card that plays is never hidden or deleted by the reconciliation. |
| Page.MainPage.constructor | app/page.tsx:32-36 | The page starts with no messages, no videos and nothing pending. |
| Page.MainPage.AnnounceAndDelete | app/page.tsx:71-77 | The loop issues the notices of the failed videos in order and changes nothing else. |
| Page.MainPage.GetVideos | app/page.tsx:52-88 | After a fetch, the page shows exactly the non-failed videos and issues the notices of the failed ones. A missing list counts as empty, a fetch that raises changes nothing, and loading always ends. |
| Page.MainPage.HandleSubmit | app/page.tsx:96-166 | A blank input or a pending request is ignored. Otherwise the trimmed input and one assistant message are appended: the URL as a video on success, the body's message otherwise, the apology on a raise or a non-ok response. The earlier messages are posted. |
| Session.PageSees | app/api/chat/route.ts:136-226 | The page sees `ok` exactly for a started generation, and then `success` without a `url`. |
| Session.Submit | app/page.tsx:96-166 | With the route as written, every accepted submit ends with the apology, and nothing is stored or queued. |
| Session.FirstSessionCorrected | app/page.tsx:89-93 | On an empty database, correcting the chat route alone still starts nothing: the page's registration stores no user. |
| Session.FirstSessionFixed | app/page.tsx:89-93 | With both corrections, a request with an email, a message, a key and a script starts a generation whenever the store is up and the event is queued, and the page sees `ok`. |

## Left out

- The generation call and the system prompt (app/api/chat/route.ts:8-104 and 139-182), including how the history is formatted for the model. The model's text is an input, or `None` when the call raised.
- The renderer's HTTP call (inngest/functions/renderVideo.ts:21-31). Its reply is an input of `RenderVideo.Handle`; an HTTP error that makes the step raise is not modelled.
- Inngest delivery: retries, the memoisation of `step.run`, and the serve endpoint (app/api/inngest/route.ts). A handler runs once per event.
- `connectDb` (config/database.ts), which exits the process when the connection fails. Store failures appear only as the user route's `storeUp` flag.
- In the chat route, a store call that raises for another reason than validation, and a request body that is not JSON, are not modelled.
- A document id that is not a valid ObjectId (a cast error in `findByIdAndUpdate` or `findByIdAndDelete`) is not modelled. Ids are natural numbers.
- JSON `null` and an absent field are both `None`, and a field of the wrong type is not modelled.
- The rendering of the page, toasts shown on screen, Clerk, `useEffect`, and the `id` and `timestamp` fields of messages. Toasts and DELETE requests are recorded as effects, in order.
- Page.MainPage.GetVideos: a DELETE request that raises would end the loop early and leave the displayed list unchanged. The model issues every request.
- Page.MainPage.GetVideos: the schema's `prompt` is optional (models/Video.ts:9), and `truncateText` on a missing prompt (app/page.tsx:72) would raise inside the loop and skip `setVideos`. The model's prompts are always strings. No route stores a video without a prompt, so the case does not arise from the routes modelled.
- Page.TruncateText: counts characters, whereas JavaScript counts UTF-16 code units, so a prompt with characters outside the Basic Multilingual Plane is cut at a different place.
- ManimFix.FixManimScript: no idempotence is stated, because the pass is not idempotent. ManimCases.NotIdempotent shows `fill_fill_opacity=` becoming `fill_opacity=` and then `opacity=`.
- RenderVideo.TargetRecord: a reply without a public URL keeps the old URL because the patch sets `videoUrl` to `undefined`, and Mongoose 6 and later drop `undefined` keys from an update. Under a driver that wrote `null` instead, the URL would be cleared, and the model does not cover that.
- VideosRoute.ListVideos: a user lookup that misses lists every stored video. This rests on Mongoose dropping a filter key whose value is `undefined`, so that `{userId: undefined}` becomes `{}`. A driver that sent the key as `null` would match no video, and the model does not cover that.
- Session.PageSees: the chat route's success body has no `url` field, so on success the page appends a video message with no URL. The model records this rather than correcting it.
- The video card's rendering beyond the play condition (app/page.tsx:171-200), and next.config.ts.
- The replies of the DELETE route (app/api/video/[id]/route.ts): "Video not found" and the server error. The page does not read them.

## Findings

| source | as written | input that shows it | evidently intended | confidence | as-written member | corrected member |
|---|---|---|---|---|---|---|
| app/api/chat/route.ts:199 | `Video.create` is called with status "pending", which the schema's enum (models/Video.ts:17) rejects, so the create raises and the route answers "Failed to generate Manim script". | Any request with a message, a configured key, a generated script and a user whose email is stored. | Leave the status to the schema default "processing", so the record is stored and the render event queued. | not executed | ChatRoute.Post | ChatRoute.PostCorrected |
| app/api/videos/route.ts:18-19 | When no user has the posted email, `usser?._id` is `undefined`, Mongoose drops the key, and `Video.find({})` lists every user's videos. | Any non-empty email that no user has, with at least one stored video; since the page never registers anyone (next row), every caller whose email was not stored by other means is one. | List no video when no user has the email. | medium; not executed, rests on Mongoose dropping `undefined` filter keys | VideosRoute.StrangerSeesAll | VideosRoute.ListedAreTheOwners |
| app/page.tsx:90-93 | The page posts the bare Clerk user object to `/api/user`, which reads `body.user` (app/api/user/route.ts:8) and answers "No user provided", so no user is ever registered. | Any signed-in user whose email is not yet stored. | Post `{ user }`, so the route finds or creates the user. | not executed | UserRoute.PostFromPage | UserRoute.PostFromPageCorrected |
