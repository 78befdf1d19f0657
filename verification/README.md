# Messenger echo-bot webhook, modelled in Dafny

The system is a single Express webhook for a Messenger page (`index.js`). It answers the
platform's verification handshake (GET `/webhook`). It walks each delivery payload (POST
`/webhook`) entry by entry and event by event. For every message it picks a reply by a
prioritised set of text tests, and for every postback it quotes the payload. Each reply goes to
the Send API, unless no page access token is configured.

The model has six modules:

- `JsText` (`js_text.dfy`) models the JavaScript behaviour the handlers rely on: truthiness of a
  possibly undefined string, `trim()` (the exact ECMAScript whitespace and line-terminator set),
  ASCII `toLowerCase()`, `startsWith` and `slice(start)`. `Trim` is characterised by lemmas: it
  returns the slice of the input left once the surrounding whitespace is removed, and that slice
  is unique.
- `Messenger` (`messenger.dfy`) holds the data model: payload, entries, messaging events,
  messages, postbacks, send requests and HTTP responses. Every field the source reads may be
  absent, and is an `Option`, except the sender's `id`, which is a string (see "Left out").
- `Verification` (`verification.dfy`) is the handshake, a pure function of the three query
  parameters and the configured secret.
- `Replies` (`replies.dfy`) holds the reply selection of `handleMessage` and the text of
  `handlePostback`. `Classify` names the branch of the if-chain that fires, and `ReplyText`
  renders it. The lemmas cover keyword precedence, normalisation, the echo prefix and the quirk
  that the echo command slices the untrimmed text.
- `Dispatch` (`dispatch.dfy`) holds the specification of the POST handler. Its functions give the
  status it answers and the ordered requests its handlers attempt. The lemmas cover order,
  filtering and the access-token gate.
- `Webhook` (`webhook.dfy`) is the stateful server. Class `Server` holds the two configured tokens
  and the log `issued` of Send API requests. Its methods mirror the handlers. The outer `forEach` becomes
  the loop `HandleEntries`, its callback the loop `HandleEntry`, and the inner callback `HandleEvent`. Each method is proved against the
  `Dispatch` and `Replies` functions.

Three behaviours of index.js are easy to misread:

- The POST handler does not await `handleMessage` or `handlePostback` (index.js:43, 46). The
  200 answer is therefore not held back until the sends settle. The model records each request
  when its send starts. Each async handler runs synchronously up to the `fetch` in
  `callSendAPI`, so that order is the dispatch order.
- An event may carry both a message and a postback. The two tests at index.js:42 and
  index.js:45 are independent, so such an event yields two requests, the message's first.
- `"  echo hi"` replies `"o hi"`. The echo test is made on the trimmed text, but `slice(5)` cuts
  the text as received (index.js:74-75).

## Model

| member | source | states |
|---|---|---|
| `JsText.TrimStart` | index.js:69 | removing leading whitespace never lengthens the text, and the result starts with a non-whitespace character or is empty |
| `JsText.TrimEnd` | index.js:69 | removing trailing whitespace never lengthens the text, and the result ends with a non-whitespace character or is empty |
| `JsText.TrimStartIsSuffix` | index.js:69 | removing leading whitespace leaves a suffix of the input, and what precedes it is all whitespace |
| `JsText.TrimEndIsPrefix` | index.js:69 | removing trailing whitespace leaves a prefix of the input, and what follows it is all whitespace |
| `JsText.Trim` | index.js:69 | `trim()` never lengthens the text, and its result neither starts nor ends with whitespace |
| `JsText.TrimIsSlice` | index.js:69 | `trim()` returns a contiguous slice of the input, and everything before and after that slice is whitespace |
| `JsText.TrimPadded` | index.js:69 | any padding of a word with whitespace on both sides trims back to exactly that word, so `trim()` is determined uniquely |
| `JsText.TrimStartSkips` | index.js:69 | leading whitespace does not affect the removal of leading whitespace |
| `JsText.TrimEndSkips` | index.js:69 | trailing whitespace does not affect the removal of trailing whitespace |
| `JsText.Truthy` | index.js:20 | no `ensures` of its own: JavaScript truthiness of an optional string, as used at index.js:20, 68, 79 and 93; `VerifyWebhook`, `Classify` and `CallSendApi` state their branches with it |
| `JsText.StartsWith` | index.js:74 | no `ensures` of its own: `startsWith` as a sequence prefix; `ClassifyText` and `PostbackText` state their results with it |
| `JsText.SliceFrom` | index.js:75 | `slice(start)` returns a suffix of the input of length max(\|s\| - start, 0) |
| `JsText.ToLower` | index.js:69 | lower-casing keeps the length |
| `Verification.VerifyWebhook` | index.js:15-29 | status 200 with a body equal to the challenge exactly when mode and token are both truthy, mode is "subscribe" and token equals the secret; 403 when both are truthy but a comparison fails; 400 when either is undefined or empty; only 200 carries a body |
| `Verification.StatusIgnoresChallenge` | index.js:20-28 | the status never depends on the challenge |
| `Verification.UnsetSecretNeverVerifies` | index.js:9-25 | with VERIFY_TOKEN undefined or empty, every request gets 400 or 403 |
| `Replies.Normalize` | index.js:69 | the matched form is never longer than the text |
| `Replies.ClassifyText` | index.js:69-78 | a truthy text always takes one of the four text branches, and the echo-prefix branch is taken only by texts of at least five characters |
| `Replies.Classify` | index.js:66-81 | a text branch is chosen exactly when the text is truthy; the attachment reply exactly when there is no truthy text and at least one attachment; the default reply exactly when there is neither |
| `Replies.YouSaid` | index.js:77 | no `ensures` of its own: the generic "You said" reply around the untrimmed text; `BareEchoIsEchoedWhole`, `ExampleEchoedWhole` and `ExampleKeywordWithMoreWords` describe when it is sent |
| `Replies.ReplyText` | index.js:66-81 | no `ensures` of its own: renders the branch `Classify` picks; `Classify`, `TextDecidesAlone`, `NoTextReply`, `KeywordsDespitePaddingAndCase`, `EchoReplyIsSuffix` and `EchoDropsFiveOriginalChars` describe it, and `Server.HandleMessage` is proved to send it |
| `Replies.PostbackText` | index.js:86-88 | the reply starts with "Postback received: " and the rest is the payload, or "undefined" when the payload is absent |
| `Replies.TextDecidesAlone` | index.js:68-81 | with a truthy text, the attachments never change the reply |
| `Replies.NoTextReply` | index.js:66-81 | without a truthy text, the reply is "Thanks for the attachment!" when there is an attachment, otherwise the default reply |
| `Replies.EchoReplyIsSuffix` | index.js:74-75 | the echo branch replies with the original text minus its first five characters, a suffix five characters shorter |
| `Replies.LowerKeepsWhitespace` | index.js:69 | lower-casing turns whitespace into whitespace and nothing else into whitespace |
| `Replies.AlreadyLowerCase` | index.js:69 | a text with no capital ASCII letter is unchanged by lower-casing |
| `Replies.NormalizePadded` | index.js:69 | whitespace around a word does not change its normalised form |
| `Replies.KeywordsDespitePaddingAndCase` | index.js:69-73 | "hi" and "hello" in any case and with any surrounding whitespace give the greeting, and "help" gives the command list, whatever the attachments |
| `Replies.EchoDropsFiveOriginalChars` | index.js:69-75 | for whitespace, then a word that lower-cases to "echo ", then a rest ending in non-whitespace, then whitespace, the reply is (leading whitespace + word) minus its first five characters, followed by the rest and the trailing whitespace; with no leading whitespace it is exactly the rest and the trailing whitespace |
| `Replies.EchoCutInBasicPlane` | index.js:74-75 | when the echo branch fires, the five characters `slice(5)` removes all lie in the Basic Multilingual Plane, so cutting by code points and by UTF-16 code units agree |
| `Replies.BareEchoIsEchoedWhole` | index.js:69-77 | "echo" (any case) with only whitespace around it is not the echo command, because trimming removes the space; it gets the generic "You said" reply |
| `Replies.PostbackTextInjective` | index.js:87-88 | different payloads give different postback replies |
| `Replies.ExamplePaddedGreeting` | index.js:69-71 | "  Hi  " gets the greeting |
| `Replies.ExampleEcho` | index.js:74-75 | "Echo HELLO world" replies "HELLO world" |
| `Replies.ExampleIndentedEcho` | index.js:74-75 | "  echo hi" replies "o hi" |
| `Replies.ExampleEchoedWhole` | index.js:76-77 | "xyzzy" gets the generic "You said" reply |
| `Replies.ExampleKeywordWithMoreWords` | index.js:72-77 | "Help me" is no command and gets the generic "You said" reply |
| `Replies.ExampleAttachmentAndPostback` | index.js:79-88 | an empty text with one attachment is thanked for, and postback "BUY_NOW" replies "Postback received: BUY_NOW" |
| `Dispatch.MessageRequest` | index.js:98-101 | no `ensures` of its own: the request `handleMessage` posts at index.js:83, addressed to the sender with the `ReplyText` reply; `EventRequestsToSender` and `Server.HandleMessage` state it |
| `Dispatch.PostbackRequest` | index.js:98-101 | no `ensures` of its own: the request `handlePostback` posts at index.js:89, addressed to the sender with the `PostbackText` reply; `EventRequestsToSender` and `Server.HandlePostback` state it |
| `Dispatch.EventRequests` | index.js:41-48 | an event without a sender triggers nothing; otherwise it triggers one request for a message plus one for a postback |
| `Dispatch.EventRequestsToSender` | index.js:42-47 | every request an event triggers is addressed to that event's sender |
| `Dispatch.EventsRequests` | index.js:41-48 | no `ensures` of its own: the requests of the inner `forEach`, in event order; `EventsRequestsAppend`, `EventOrder`, `SenderlessEventSkipped` and `RepliesGoToSenders` describe it, and `Server.HandleEntry` is proved to issue them |
| `Dispatch.EntryEvents` | index.js:40 | no `ensures` of its own: `entry.messaging \|\| []`; `EntryWithoutMessagingSkipped` states that a missing array contributes nothing |
| `Dispatch.EntriesRequests` | index.js:38-49 | no `ensures` of its own: the requests of the outer `forEach`, in entry order; `EntriesRequestsAppend`, `EntryOrder` and `EntryWithoutMessagingSkipped` describe it, and `Server.HandleEntries` is proved to issue them |
| `Dispatch.PostResponse` | index.js:32-60 | 404 exactly for a non-page object; 500 exactly for a page payload without an entry array; otherwise 200 "EVENT_RECEIVED" |
| `Dispatch.AttemptedRequests` | index.js:37-55 | no request is attempted unless the answer is 200 |
| `Dispatch.Delivered` | index.js:93-96 | no `ensures` of its own: the access-token gate, which lets a batch through only with a truthy token; `DeliveredAppend` and `NoTokenNoDelivery` describe it, and `Server.CallSendApi` is proved to apply it |
| `Dispatch.DeliveredAppend` | index.js:93-96 | the access-token gate treats a batch of requests as the sum of its parts |
| `Dispatch.EventsRequestsStep` | index.js:41-48 | handling one more event of an entry delivers exactly that event's requests in addition to the earlier ones |
| `Dispatch.EntriesRequestsStep` | index.js:38-49 | handling one more entry delivers exactly the requests of its events in addition to the earlier ones |
| `Dispatch.EventsRequestsAppend` | index.js:41-48 | the requests of a run of events are those of its first part followed by those of its second |
| `Dispatch.EntriesRequestsAppend` | index.js:38-49 | the requests of a run of entries are those of its first part followed by those of its second |
| `Dispatch.EntryOrder` | index.js:38-49 | the requests of an entry come after those of every earlier entry and before those of every later one |
| `Dispatch.EventOrder` | index.js:41-48 | within an entry, the requests of an event come after those of earlier events and before those of later ones |
| `Dispatch.SenderlessEventSkipped` | index.js:42-47 | an event without a sender contributes nothing, wherever it stands |
| `Dispatch.EntryWithoutMessagingSkipped` | index.js:40 | an entry without a messaging array contributes nothing, wherever it stands |
| `Dispatch.MessageAndPostbackBothAnswered` | index.js:42-47 | an event with a sender, a message and a postback yields exactly two requests to the sender, the message reply first |
| `Dispatch.RepliesGoToSenders` | index.js:42-47 | every request is addressed to the sender of one of the events |
| `Dispatch.NonPageIgnored` | index.js:37-55 | a non-page payload is answered 404 and triggers no request |
| `Dispatch.NoTokenNoDelivery` | index.js:93-96 | without a truthy access token, no request is delivered for any payload |
| `Dispatch.ExampleHelpDelivery` | index.js:32-51 | a page payload with one "help" message from U1 is answered 200 "EVENT_RECEIVED" and triggers exactly one request, to U1, with the command list |
| `Webhook.Server.constructor` | index.js:8-9 | the server starts with the given access token and verify token, and has issued nothing |
| `Webhook.Server.GetWebhook` | index.js:15-29 | the GET handler answers the handshake against the configured secret |
| `Webhook.Server.CallSendApi` | index.js:92-101 | one request is added to the log exactly when the access token is truthy; otherwise nothing is added |
| `Webhook.Server.HandleMessage` | index.js:62-84 | the if-chain with its reassigned `reply` selects the same text as `ReplyText`, and that reply is sent to the sender |
| `Webhook.Server.HandlePostback` | index.js:86-90 | the template-literal reply equals `PostbackText`, and it is sent to the sender |
| `Webhook.Server.HandleEvent` | index.js:41-48 | one event adds exactly its `EventRequests` to the log, behind the gate |
| `Webhook.Server.HandleEntry` | index.js:40-48 | the loop over an entry's events, with a missing array treated as empty, adds its requests in event order |
| `Webhook.Server.HandleEntries` | index.js:38-49 | the loop over the entries adds the gated requests of all of them, in entry order |
| `Webhook.Server.PostWebhook` | index.js:32-60 | the answer is `PostResponse`, and the log grows by exactly the gated `AttemptedRequests`, in entry and event order |

## Left out

- Express routing, the `req` and `res` objects, `app.listen` with its `PORT`, and the health check at index.js:12 are framework I/O. A response is modelled by its status and, for `send`, its body. The status text that `sendStatus` writes as the body is not modelled.
- A query parameter given several times (Express then yields an array) is not modelled. Each parameter is one optional string.
- `node-fetch`, the Graph API URL with `encodeURIComponent`, `JSON.stringify`, `resp.json()` and the ok and error logging (index.js:97-117) are network and foreign calls whose outcome is only logged. `Server.CallSendApi` records the request it would post in `issued` instead.
- `console.log` and `console.error` are left out. The environment variables (index.js:8-9) become the parameters of the `Server` constructor.
- Async timing is left out. `issued` holds the requests in the order their sends start, not the order in which they complete.
- Exceptions are modelled only for a page payload without an `entry` array, which gets 500. A non-array `entry` and a null entry or event also throw inside the `try` at index.js:33-56, and are answered 500. These are not modelled. A throw in the middle of the events would come after earlier sends had already started; that is not modelled either.
- A sender without an `id` is not modelled: `Sender.id` is a string. In the source `event.sender.id` is then `undefined` and does not throw. `handleMessage` or `handlePostback` runs with an undefined PSID. With a token set, it posts a request whose `recipient` has no `id`, because `JSON.stringify` drops the undefined field.
- A message whose `text` is present but not a string is not modelled: `Message.text` is an optional string. In the source `trim` is then not a function, and the throw happens inside the un-awaited async `handleMessage` (index.js:69). It rejects that handler's promise and never reaches the catch at index.js:56. The POST is still answered 200 "EVENT_RECEIVED", no reply is sent for that message, and the rejection goes unhandled.
- A postback `payload` that is JSON `null`, a number or another non-string value is not modelled: `Postback.payload` is an optional string, and absence is rendered as "undefined". The template literal at index.js:88 would render `null` as "null" and `42` as "42".
- `toLowerCase()` is modelled on the ASCII letters A-Z only. Full Unicode lower-casing is left out. The model relies on no non-ASCII character lower-casing to a single letter of "hi", "hello", "help" or "echo ". Under that, the branch taken is the same, and only the lower-cased text can differ.
- Strings are sequences of Unicode code points, while JavaScript counts UTF-16 code units. This never changes a reply. The only index-based operation is `slice(5)` in the echo branch. `Replies.EchoCutInBasicPlane` shows that the five characters it cuts there are whitespace or letters of "echo ", all inside the Basic Multilingual Plane, where one code point is one code unit.
