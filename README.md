# Image Description Bot — a Dafny model of its decision logic

The bot is a Bot Framework webhook. It answers an image with captions and the
faces a vision service found in it. This project models its two pieces of
decision code:

- **The activity router** (`Controllers/MessagesController.cs`). `Post` hands
  message activities to the root dialog and always answers 202 Accepted.
  `HandleSystemMessage` is an exclusive chain over the activity type. It acts
  in one case only: a conversation update whose added members include the
  bot. Then it sends one fixed welcome reply into the triggering conversation.
  Module `Controllers`: the functions `SystemMessage` and `PostOutcome` give
  what each call does. The class `MessagesController` logs its effects
  (dispatch to the dialog, replies sent) and is proved against those
  functions.
- **The per-turn image pipeline** (`Dialogs/RootDialog.cs`). It picks the first
  attachment whose content type contains `"image"` and posts "Downloading
  image...". It downloads the image, using a bearer token on the Skype channel
  only, and posts "Image received, processing started...". Then it posts the
  caption reply and, when faces were found, a faces reply. Any exception inside
  the try block adds exactly one error reply after the replies already posted.
  The dialog then waits for the next message. In module `Dialogs`, the
  functions `RunTurn`, `ImageTurn`, `TryBlock` and `Processing` give the
  ordered replies and remote calls of one turn. The class `RootDialog` holds
  the posted-reply log, the call log and the waiting flag. Its methods follow
  the source statement by statement and are proved against those functions.
  Module `Download` covers the Skype header rule (`HandleSkypeSecurityToken`,
  updating a header object in place), `GetTokenAsync` and `DownloadImage`.
- Module `Text` gives the .NET string operations the replies are built from:
  ordinal `String.Contains`, `String.Join` and decimal `int` rendering. Each
  has an independent characterisation: a substring witness, the position of
  every part in a join, and a parse-back round trip.

Every remote call is an input to the model: the HTTP GET of the image, the
token request, `DescribeAsync` and `AnalyzeImageAsync`. Each input is the value
returned or the exception thrown (`Outcomes.Remote`, `Dialogs.Description`,
`Dialogs.Analysis`).

Behaviour of the code worth noting:

- The caption header is `"#### My best guesses are:  \n"`: two spaces and one
  newline.
- The attachment selection runs outside the try block. A null content type met
  before an image throws out of the turn with no reply at all, and the dialog is
  not re-registered as waiting.
- A null caption list makes `String.Join` throw, so the turn takes the error
  path, not the "no idea" path.
- A successful turn without faces posts three replies.

## Model

| member | source | states |
|---|---|---|
| Text.Contains | Dialogs/RootDialog.cs:31 | `Contains(s, sub)` holds exactly when `sub` occurs at some position of `s` (ordinal, case-sensitive) |
| Text.JoinLayout | Dialogs/RootDialog.cs:44-45 | in `String.Join(sep, parts)` every part sits at its offset, in order, and neighbouring parts are separated by exactly one `sep` |
| Text.JoinLength | Dialogs/RootDialog.cs:56-57 | a join ends right after its last part, so it holds nothing beyond the parts and separators |
| Text.JoinEmpty | Dialogs/RootDialog.cs:47 | with a non-empty separator, a join is empty iff there are no parts or the single part is empty |
| Text.JoinLayoutAfter | Dialogs/RootDialog.cs:49 | the same layout holds after a header prefixed to the join, and the header is kept intact |
| Text.NatToString | Dialogs/RootDialog.cs:57 | the decimal rendering of a number is non-empty, all digits, with no leading zero |
| Text.IntToStringRoundTrip | Dialogs/RootDialog.cs:57 | the `{int}` rendering loses nothing: parsing it back gives the same number |
| Download.GetToken | Dialogs/RootDialog.cs:100-109 | a token exactly for app credentials whose token request succeeded; null for any other credentials; a failed token request throws |
| Download.SkypeOnly | Dialogs/RootDialog.cs:90-98 | the headers change or the token request throws iff `ChannelId == "skype"`; on Skype they carry `Bearer <token>` and gain an `application/octet-stream` Accept entry at the end; elsewhere they are unchanged |
| Download.RequestHeaders.constructor | Dialogs/RootDialog.cs:80 | a fresh client has no Authorization and no Accept headers |
| Download.RequestHeaders.HandleSkypeSecurityToken | Dialogs/RootDialog.cs:90-98 | updates the headers in place to `SecureHeaders` of the old ones; a failed token request leaves them untouched |
| Download.DownloadImage | Dialogs/RootDialog.cs:77-88 | no GET is issued only when the token request fails on Skype; otherwise the result is the GET's; the request carries an Authorization header iff the channel is Skype, and no headers at all elsewhere |
| Dialogs.FirstImageFrom | Dialogs/RootDialog.cs:31 | the scan returns the first attachment whose content type contains "image", after attachments that all had a non-image content type; it reports no image iff all were scanned; a null content type met first throws |
| Dialogs.SelectionIsFirstMatch | Dialogs/RootDialog.cs:31 | the selected attachment is the first image in list order; no image iff every content type lacks "image"; a null list selects nothing, like an empty one |
| Dialogs.CaptionReplyCases | Dialogs/RootDialog.cs:44-49 | the caption reply is "Sorry, but I've no idea what it is :(" iff there are no captions; otherwise it is the header followed by the joined captions |
| Dialogs.CaptionInOrder | Dialogs/RootDialog.cs:44-49 | caption `i`, as `"{Text} ({Confidence})"`, sits after the header at its place in service order, with one separator before the next |
| Dialogs.FaceInOrder | Dialogs/RootDialog.cs:56-59 | face `i`, as `"{Gender}, {Age} at ({Left}, {Top})"`, sits after the faces header in order, with one separator before the next |
| Dialogs.FacesHeaderIsDistinct | Dialogs/RootDialog.cs:36-59 | only the faces reply starts with the faces header; no acknowledgement or caption reply does |
| Dialogs.TwoCaptionsExample | Dialogs/RootDialog.cs:44-49 | two captions give the header, `cat (97.00%)`, the separator and `animal (81.00%)` |
| Dialogs.OneFaceExample | Dialogs/RootDialog.cs:56-59 | one face gives the faces header followed by `Male, 34 at (10, 20)` |
| Dialogs.NoImageTurn | Dialogs/RootDialog.cs:68-71 | without an image attachment the turn posts exactly the prompt and makes no remote call |
| Dialogs.NullContentTypeTurn | Dialogs/RootDialog.cs:31 | a null content type met before any image ends the turn with no reply, no call, and without reaching line 74 |
| Dialogs.SuccessTurn | Dialogs/RootDialog.cs:36-59 | with no failure the turn posts the two acknowledgements, then the caption reply, then the faces reply iff there are faces: 3 or 4 replies, after download, describe and analyse calls in that order |
| Dialogs.DownloadFailureTurn | Dialogs/RootDialog.cs:36-37 | a failed download gives exactly `["Downloading image...", error]` and no describe or analyse call |
| Dialogs.DescribeFailureTurn | Dialogs/RootDialog.cs:42-45 | a failed describe call or a null caption list keeps both acknowledgements, appends one error reply and skips the analysis |
| Dialogs.AnalyseFailureTurn | Dialogs/RootDialog.cs:52-54 | a failed analyse call or a null analyse result keeps the caption reply, appends one error reply and posts no faces reply |
| Dialogs.ErrorEndsTurn | Dialogs/RootDialog.cs:34-66 | a turn without failure posts the success replies; after any failure the earlier replies are a prefix of the success replies (the acknowledgements, then the caption reply if one was posted) and exactly one error reply comes last; an error reply appears only after a failure |
| Dialogs.FacesReplyIff | Dialogs/RootDialog.cs:54-60 | a faces reply is posted iff download, describe and analyse all succeeded and the face list is non-null and non-empty |
| Dialogs.RootDialog.constructor | Dialogs/RootDialog.cs:15 | a new dialog has posted nothing, made no call and is not yet waiting |
| Dialogs.RootDialog.StartAsync | Dialogs/RootDialog.cs:22-25 | the dialog starts out waiting for a message, with nothing posted |
| Dialogs.RootDialog.Post | Dialogs/RootDialog.cs:36 | posting appends exactly one reply to the conversation and changes nothing else |
| Dialogs.RootDialog.DescribeAndAnalyse | Dialogs/RootDialog.cs:42-60 | posts and calls exactly what `Processing` gives and returns its fault |
| Dialogs.RootDialog.TryImage | Dialogs/RootDialog.cs:36-61 | the try block posts and calls exactly what `TryBlock` gives and returns the exception it threw, if any |
| Dialogs.RootDialog.MessageReceived | Dialogs/RootDialog.cs:27-75 | appends exactly the turn's replies and calls to the logs; the dialog is waiting again iff the turn ran to its end |
| Controllers.AnyMatches | Controllers/MessagesController.cs:48-50 | `Any(isBot)` holds iff some added member's id equals the recipient's id |
| Controllers.BotWasAdded | Controllers/MessagesController.cs:48-50 | the test throws iff there are added members and no recipient; it is true iff some added member has the recipient's id |
| Controllers.MessageIsDispatched | Controllers/MessagesController.cs:25-27 | a message activity is dispatched to the dialog, nothing else happens, and the answer is 202 |
| Controllers.AlwaysAccepted | Controllers/MessagesController.cs:22-34 | every call that returns answers 202; among the exceptions the model covers, a call throws iff the activity is null or it is a conversation update with added members and no recipient (connector construction is not covered, see below) |
| Controllers.WelcomeIff | Controllers/MessagesController.cs:42-55 | exactly one reply is sent iff the activity is a conversation update where some added member has the recipient's id, however many do; the reply is the welcome text, to the triggering activity, in its conversation and through its service URL |
| Controllers.OtherTypesDoNothing | Controllers/MessagesController.cs:36-70 | delete-user-data, contact-relation-update, typing, ping and unrecognised types cause no effect and get 202 |
| Controllers.AtMostOneEffect | Controllers/MessagesController.cs:38-68 | the chain is exclusive: at most one effect per activity |
| Controllers.MessagesController.ReplyToActivity | Controllers/MessagesController.cs:52-54 | sending appends exactly that reply to the effect log |
| Controllers.MessagesController.HandleSystemMessage | Controllers/MessagesController.cs:36-71 | returns iff `SystemMessage` does not throw, and appends exactly the replies it sends |
| Controllers.MessagesController.Post | Controllers/MessagesController.cs:22-34 | answers and appends effects exactly as `PostOutcome` gives |

## Left out

- The vision service (`DescribeAsync`, `AnalyzeImageAsync`) and its configuration are remote calls. Their results or exceptions are inputs.
- The image bytes are never inspected. The describe and analyse outcomes do not depend on them.
- `{c.Confidence:P2}` is culture-dependent floating-point formatting. Each caption carries its rendered confidence as an opaque string.
- `{ex}`, the rendering of an exception, is produced at run time. An error reply is `ErrorReport(fault)`, posted as `ErrorPrefix` followed by that rendering, which is not modelled.
- `new Uri(ContentUrl)` may throw on a malformed URL. That happens inside the try block, like a download failure, so the model folds it into the GET outcome.
- A face whose `FaceRectangle` is null is not modelled. The service always returns one for a detected face. A null `Gender` renders like the empty string, so gender is a plain string.
- `int` rendering uses the invariant culture's minus sign. Ages and coordinates are non-negative in practice.
- The Bot Framework runtime is library behaviour and is not shown: `Conversation.SendAsync`, the transport behind `context.PostAsync`, `[Serializable]` persistence, `[BotAuthentication]`, connector transport, and what the runtime does after an exception escapes a dialog. Posting is an append to a log. Resuming the dialog is a call of `MessageReceived`.
- `GetActivityType()` normalises the type string in a way the library does not show. Activity types are an enumeration, and `Post` and `HandleSystemMessage` classify the same value.
- `CreateReply` is reduced to the addressing fields the router promises: service URL, conversation, and the activity replied to.
- Failures to deliver a reply are not modelled. They are not caught in the source and are transport behaviour.
- A null `context.Activity` inside the dialog, and null entries inside `MembersAdded`, are not modelled.
- Null entries in the caption list or the face list are not modelled. They would throw inside the try block (Dialogs/RootDialog.cs:45, :57) and give an error reply; `Caption` and `Face` cannot express them. A null entry in the attachment list is represented as an attachment with a null content type, since it throws at the same point.
- `new Uri(message.ServiceUrl)` (Controllers/MessagesController.cs:53) throws for a null or malformed service URL. The model takes the service URL as well-formed, so `AlwaysAccepted` does not list that exception.
- Async/await and concurrency between requests are not modelled. No state is shared between turns.
