/**
  * What the POST /webhook handler (index.js:32-60) answers and which Send API requests its
  * handlers attempt, as functions of the payload; the imperative handler is proved against them.
  */
module Dispatch {
  import opened JsText
  import opened Messenger
  import opened Replies

  const PageObject := "page"
  const EventReceived := "EVENT_RECEIVED"

  /** The request handleMessage builds for a message from `senderPsid`. */
  function MessageRequest(senderPsid: string, m: Message): SendRequest {
    SendRequest(senderPsid, ReplyMessage(ReplyText(m)))
  }

  /** The request handlePostback builds for a postback from `senderPsid`. */
  function PostbackRequest(senderPsid: string, p: Postback): SendRequest {
    SendRequest(senderPsid, ReplyMessage(PostbackText(p)))
  }

  /**
    * The requests one messaging event triggers: the two tests are independent, so an event with
    * both a message and a postback triggers two, the message's first; without a sender, none.
    */
  function EventRequests(e: MessagingEvent): (r: seq<SendRequest>)
    ensures e.sender.None? ==> r == []
    ensures |r| == (if e.sender.Some? && e.message.Some? then 1 else 0)
                 + (if e.sender.Some? && e.postback.Some? then 1 else 0)
  {
    (if e.message.Some? && e.sender.Some? then [MessageRequest(e.sender.value.id, e.message.value)] else [])
    + (if e.postback.Some? && e.sender.Some? then [PostbackRequest(e.sender.value.id, e.postback.value)] else [])
  }

  /** Lemma: every request an event triggers is addressed to that event's sender. */
  lemma EventRequestsToSender(e: MessagingEvent)
    ensures forall q :: q in EventRequests(e) ==> e.sender.Some? && q.recipientId == e.sender.value.id
  {
  }

  /** The requests a sequence of events triggers, in event order. */
  function EventsRequests(events: seq<MessagingEvent>): seq<SendRequest> {
    if events == [] then []
    else EventsRequests(events[..|events| - 1]) + EventRequests(events[|events| - 1])
  }

  /** `entry.messaging || []`: a missing messaging array counts as an empty one. */
  function EntryEvents(entry: Entry): seq<MessagingEvent> {
    entry.messaging.GetOr([])
  }

  /** The requests a sequence of entries triggers, in entry order and event order within each entry. */
  function EntriesRequests(entries: seq<Entry>): seq<SendRequest> {
    if entries == [] then []
    else EntriesRequests(entries[..|entries| - 1]) + EventsRequests(EntryEvents(entries[|entries| - 1]))
  }

  /**
    * The answer to a POST: 404 for anything but a page subscription, 500 when a page payload has
    * no `entry` array (iterating it throws), otherwise 200 "EVENT_RECEIVED".
    */
  function PostResponse(body: Payload): (r: HttpResponse)
    ensures r.code == 404 <==> body.objectType != Some(PageObject)
    ensures r.code == 500 <==> body.objectType == Some(PageObject) && body.entry.None?
    ensures r.code == 200 <==> body.objectType == Some(PageObject) && body.entry.Some?
    ensures r.code == 200 ==> r == Send(200, EventReceived)
    ensures r.code != 200 ==> r.SendStatus?
  {
    if body.objectType == Some(PageObject) then
      match body.entry
      case None => SendStatus(500)
      case Some(entries) => Send(200, EventReceived)
    else
      SendStatus(404)
  }

  /** The Send API requests the handlers attempt for a POST body, before the access-token gate. */
  function AttemptedRequests(body: Payload): (r: seq<SendRequest>)
    ensures PostResponse(body).code != 200 ==> r == []
  {
    if body.objectType == Some(PageObject) && body.entry.Some? then EntriesRequests(body.entry.value) else []
  }

  /** The requests that leave the process: all attempted ones with an access token, none without. */
  function Delivered(accessToken: Option<string>, attempted: seq<SendRequest>): seq<SendRequest> {
    if Truthy(accessToken) then attempted else []
  }

  /** Lemma: the gate lets through the requests of two batches exactly when it lets through each. */
  lemma DeliveredAppend(accessToken: Option<string>, a: seq<SendRequest>, b: seq<SendRequest>)
    ensures Delivered(accessToken, a + b) == Delivered(accessToken, a) + Delivered(accessToken, b)
  {
  }

  /** Lemma: handling one more event of a sequence delivers exactly that event's requests in addition. */
  lemma EventsRequestsStep(accessToken: Option<string>, events: seq<MessagingEvent>, j: nat)
    requires j < |events|
    ensures Delivered(accessToken, EventsRequests(events[..j + 1]))
         == Delivered(accessToken, EventsRequests(events[..j])) + Delivered(accessToken, EventRequests(events[j]))
  {
    assert events[..j + 1][..j] == events[..j];
    DeliveredAppend(accessToken, EventsRequests(events[..j]), EventRequests(events[j]));
  }

  /** Lemma: handling one more entry of a sequence delivers exactly the requests of that entry's events in addition. */
  lemma EntriesRequestsStep(accessToken: Option<string>, entries: seq<Entry>, i: nat)
    requires i < |entries|
    ensures Delivered(accessToken, EntriesRequests(entries[..i + 1]))
         == Delivered(accessToken, EntriesRequests(entries[..i])) + Delivered(accessToken, EventsRequests(EntryEvents(entries[i])))
  {
    assert entries[..i + 1][..i] == entries[..i];
    DeliveredAppend(accessToken, EntriesRequests(entries[..i]), EventsRequests(EntryEvents(entries[i])));
  }

  /** Lemma: concatenation is associative (stated so that the handler loops need not rediscover it). */
  lemma AppendAssociative<T>(a: seq<T>, b: seq<T>, c: seq<T>)
    ensures a + b + c == a + (b + c)
  {
  }

  /** Lemma: the requests of consecutive events are those of the first events followed by those of the rest. */
  lemma {:induction false} EventsRequestsAppend(a: seq<MessagingEvent>, b: seq<MessagingEvent>)
    ensures EventsRequests(a + b) == EventsRequests(a) + EventsRequests(b)
    decreases |b|
  {
    if b == [] {
      assert a + b == a;
    } else {
      var init := b[..|b| - 1];
      assert (a + b)[..|a + b| - 1] == a + init;
      assert (a + b)[|a + b| - 1] == b[|b| - 1];
      EventsRequestsAppend(a, init);
    }
  }

  /** Lemma: the requests of consecutive entries are those of the first entries followed by those of the rest. */
  lemma {:induction false} EntriesRequestsAppend(a: seq<Entry>, b: seq<Entry>)
    ensures EntriesRequests(a + b) == EntriesRequests(a) + EntriesRequests(b)
    decreases |b|
  {
    if b == [] {
      assert a + b == a;
    } else {
      var init := b[..|b| - 1];
      assert (a + b)[..|a + b| - 1] == a + init;
      assert (a + b)[|a + b| - 1] == b[|b| - 1];
      EntriesRequestsAppend(a, init);
    }
  }

  /**
    * Lemma: the requests follow entry order: those of an entry come after those of every earlier
    * entry and before those of every later one.
    */
  lemma EntryOrder(before: seq<Entry>, entry: Entry, after: seq<Entry>)
    ensures EntriesRequests(before + [entry] + after)
         == EntriesRequests(before) + EventsRequests(EntryEvents(entry)) + EntriesRequests(after)
  {
    EntriesRequestsAppend(before + [entry], after);
    EntriesRequestsAppend(before, [entry]);
    assert [entry][..0] == [];
  }

  /** Lemma: within an entry, the requests of an event come after those of earlier events and before those of later ones. */
  lemma EventOrder(before: seq<MessagingEvent>, e: MessagingEvent, after: seq<MessagingEvent>)
    ensures EventsRequests(before + [e] + after)
         == EventsRequests(before) + EventRequests(e) + EventsRequests(after)
  {
    EventsRequestsAppend(before + [e], after);
    EventsRequestsAppend(before, [e]);
    assert [e][..0] == [];
  }

  /** Lemma: an event without a sender contributes nothing, wherever it stands. */
  lemma SenderlessEventSkipped(before: seq<MessagingEvent>, e: MessagingEvent, after: seq<MessagingEvent>)
    requires e.sender.None?
    ensures EventsRequests(before + [e] + after) == EventsRequests(before + after)
  {
    calc {
      EventsRequests(before + [e] + after);
      { EventOrder(before, e, after); }
      EventsRequests(before) + EventRequests(e) + EventsRequests(after);
      { assert EventRequests(e) == []; }
      EventsRequests(before) + EventsRequests(after);
      { EventsRequestsAppend(before, after); }
      EventsRequests(before + after);
    }
  }

  /** Lemma: an entry without a messaging array contributes nothing, wherever it stands. */
  lemma EntryWithoutMessagingSkipped(before: seq<Entry>, entry: Entry, after: seq<Entry>)
    requires entry.messaging.None?
    ensures EntriesRequests(before + [entry] + after) == EntriesRequests(before + after)
  {
    calc {
      EntriesRequests(before + [entry] + after);
      { EntryOrder(before, entry, after); }
      EntriesRequests(before) + EventsRequests(EntryEvents(entry)) + EntriesRequests(after);
      { assert EntryEvents(entry) == []; }
      EntriesRequests(before) + EntriesRequests(after);
      { EntriesRequestsAppend(before, after); }
      EntriesRequests(before + after);
    }
  }

  /** Lemma: an event with a sender, a message and a postback yields the message reply, then the postback reply, both to the sender. */
  lemma MessageAndPostbackBothAnswered(e: MessagingEvent)
    requires e.sender.Some? && e.message.Some? && e.postback.Some?
    ensures EventRequests(e) == [MessageRequest(e.sender.value.id, e.message.value),
                                 PostbackRequest(e.sender.value.id, e.postback.value)]
  {
  }

  /** The ids of the senders of the events that have one. */
  function SenderIds(events: seq<MessagingEvent>): set<string> {
    if events == [] then {}
    else
      var e := events[|events| - 1];
      SenderIds(events[..|events| - 1]) + (if e.sender.Some? then {e.sender.value.id} else {})
  }

  /** Lemma: every reply goes to the sender of one of the events. */
  lemma {:induction false} RepliesGoToSenders(events: seq<MessagingEvent>)
    ensures forall q :: q in EventsRequests(events) ==> q.recipientId in SenderIds(events)
  {
    if events != [] {
      RepliesGoToSenders(events[..|events| - 1]);
    }
  }

  /** Lemma: a payload that is not a page subscription is answered 404 and triggers no request. */
  lemma NonPageIgnored(body: Payload)
    requires body.objectType != Some(PageObject)
    ensures PostResponse(body) == SendStatus(404) && AttemptedRequests(body) == []
  {
  }

  /** Lemma: without an access token nothing is delivered, whatever the payload. */
  lemma NoTokenNoDelivery(accessToken: Option<string>, body: Payload)
    requires !Truthy(accessToken)
    ensures Delivered(accessToken, AttemptedRequests(body)) == []
  {
  }

  /** Lemma: a page payload with one "help" message from U1 is acknowledged and triggers exactly one request, to U1, listing the commands. */
  lemma ExampleHelpDelivery(body: Payload, text: string)
    requires text == "help"
    requires body == Payload(Some(PageObject), Some([Entry(Some([
                       MessagingEvent(Some(Sender("U1")), Some(Message(Some(text), None)), None)]))]))
    ensures PostResponse(body) == Send(200, EventReceived)
    ensures AttemptedRequests(body) == [SendRequest("U1", ReplyMessage(CommandList))]
  {
    var m := Message(Some(text), None);
    assert ReplyText(m) == CommandList by {
      AlreadyLowerCase(text);
      assert [] + text + [] == text;
      KeywordsDespitePaddingAndCase([], text, [], None);
    }
    var e := MessagingEvent(Some(Sender("U1")), Some(m), None);
    var entry := Entry(Some([e]));
    assert body.entry.value == [entry];
    assert EventsRequests([e]) == EventRequests(e) by {
      assert [e][..0] == [];
    }
    assert EntriesRequests([entry]) == EventsRequests(EntryEvents(entry)) by {
      assert [entry][..0] == [];
    }
  }
}
