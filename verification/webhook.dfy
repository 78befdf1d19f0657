/**
  * The running webhook server (index.js): its configuration, read once at start-up, and the
  * Send API requests it has issued so far. The POST handler walks the payload with nested loops
  * and each handler call may issue one request; the methods are proved against Dispatch.
  */
module Webhook {
  import opened JsText
  import opened Messenger
  import opened Verification
  import opened Replies
  import opened Dispatch

  class Server {
    /** PAGE_ACCESS_TOKEN: the Send API credential; undefined or empty disables sending. */
    const pageAccessToken: Option<string>
    /** VERIFY_TOKEN: the secret the verification handshake must present. */
    const verifyToken: Option<string>
    /** The requests issued to the Send API, in the order they were started. */
    var issued: seq<SendRequest>

    constructor (pageAccessToken: Option<string>, verifyToken: Option<string>)
      ensures this.pageAccessToken == pageAccessToken && this.verifyToken == verifyToken
      ensures issued == []
    {
      this.pageAccessToken := pageAccessToken;
      this.verifyToken := verifyToken;
      issued := [];
    }

    /** GET /webhook: the verification handshake against the configured secret; it issues nothing. */
    method GetWebhook(mode: Option<string>, token: Option<string>, challenge: Option<string>)
      returns (resp: HttpResponse)
      ensures resp == VerifyWebhook(mode, token, challenge, verifyToken)
    {
      resp := VerifyWebhook(mode, token, challenge, verifyToken);
    }

    /** callSendAPI: without a truthy access token nothing is issued; otherwise one request is. */
    method CallSendApi(senderPsid: string, response: ReplyMessage)
      modifies this
      ensures issued == old(issued) + Delivered(pageAccessToken, [SendRequest(senderPsid, response)])
    {
      if !Truthy(pageAccessToken) {
        return;
      }
      issued := issued + [SendRequest(senderPsid, response)];
    }

    /** handleMessage: picks the reply by the prioritised tests on the message, then sends it. */
    method HandleMessage(senderPsid: string, message: Message)
      modifies this
      ensures issued == old(issued) + Delivered(pageAccessToken, [MessageRequest(senderPsid, message)])
    {
      var reply := ReplyMessage(NotUnderstood);
      if Truthy(message.text) {
        var txt := Normalize(message.text.value);
        if txt == "hi" || txt == "hello" {
          reply := ReplyMessage(Greeting);
        } else if txt == "help" {
          reply := ReplyMessage(CommandList);
        } else if StartsWith(txt, EchoPrefix) {
          reply := ReplyMessage(SliceFrom(message.text.value, 5));
        } else {
          reply := ReplyMessage(YouSaid(message.text.value));
        }
      } else if message.attachments.Some? && |message.attachments.value| > 0 {
        reply := ReplyMessage(AttachmentThanks);
      }
      CallSendApi(senderPsid, reply);
    }

    /** handlePostback: sends "Postback received: " followed by the payload. */
    method HandlePostback(senderPsid: string, postback: Postback)
      modifies this
      ensures issued == old(issued) + Delivered(pageAccessToken, [PostbackRequest(senderPsid, postback)])
    {
      var text := PostbackPrefix + postback.payload.GetOr("undefined");
      CallSendApi(senderPsid, ReplyMessage(text));
    }

    /** The callback of the inner forEach: one messaging event, its message first, then its postback. */
    method HandleEvent(event: MessagingEvent)
      modifies this
      ensures issued == old(issued) + Delivered(pageAccessToken, EventRequests(event))
    {
      if event.message.Some? && event.sender.Some? {
        HandleMessage(event.sender.value.id, event.message.value);
      }
      if event.postback.Some? && event.sender.Some? {
        HandlePostback(event.sender.value.id, event.postback.value);
      }
    }

    /** The callback of the outer forEach: the events of one entry, in order; none if it has no messaging array. */
    method HandleEntry(entry: Entry)
      modifies this
      ensures issued == old(issued) + Delivered(pageAccessToken, EventsRequests(EntryEvents(entry)))
    {
      var messaging := entry.messaging.GetOr([]);
      var j := 0;
      ghost var done: seq<SendRequest> := [];
      assert messaging[..0] == [];
      while j < |messaging|
        invariant 0 <= j <= |messaging|
        invariant done == EventsRequests(messaging[..j])
        invariant issued == old(issued) + Delivered(pageAccessToken, done)
      {
        HandleEvent(messaging[j]);
        EventsRequestsStep(pageAccessToken, messaging, j);
        AppendAssociative(old(issued), Delivered(pageAccessToken, done),
                          Delivered(pageAccessToken, EventRequests(messaging[j])));
        done := EventsRequests(messaging[..j + 1]);
        j := j + 1;
      }
      assert messaging[..j] == messaging;
    }

    /** `body.entry.forEach`: the entries, in order. */
    method HandleEntries(entries: seq<Entry>)
      modifies this
      ensures issued == old(issued) + Delivered(pageAccessToken, EntriesRequests(entries))
    {
      var i := 0;
      ghost var done: seq<SendRequest> := [];
      assert entries[..0] == [];
      while i < |entries|
        invariant 0 <= i <= |entries|
        invariant done == EntriesRequests(entries[..i])
        invariant issued == old(issued) + Delivered(pageAccessToken, done)
      {
        HandleEntry(entries[i]);
        EntriesRequestsStep(pageAccessToken, entries, i);
        AppendAssociative(old(issued), Delivered(pageAccessToken, done),
                          Delivered(pageAccessToken, EventsRequests(EntryEvents(entries[i]))));
        done := EntriesRequests(entries[..i + 1]);
        i := i + 1;
      }
      assert entries[..i] == entries;
    }

    /**
      * POST /webhook: for a page subscription, handles every entry in order and answers 200
      * "EVENT_RECEIVED"; answers 404 to anything else, and 500 when there is no entry array.
      */
    method PostWebhook(body: Payload) returns (resp: HttpResponse)
      modifies this
      ensures resp == PostResponse(body)
      ensures issued == old(issued) + Delivered(pageAccessToken, AttemptedRequests(body))
    {
      if body.objectType != Some(PageObject) {
        return SendStatus(404);
      }
      if body.entry.None? {
        // body.entry.forEach throws a TypeError, which the handler's catch turns into 500.
        return SendStatus(500);
      }
      HandleEntries(body.entry.value);
      resp := Send(200, EventReceived);
    }
  }
}
