/** The values the webhook receives from the messaging platform and hands to its Send API. */
module Messenger {
  import opened JsText

  /** What a handler answers: `res.sendStatus(code)`, or `res.status(code).send(body)`. */
  datatype HttpResponse = SendStatus(code: nat) | Send(code: nat, body: string)

  datatype Sender = Sender(id: string)

  /** An attachment descriptor; the webhook only ever looks at how many there are. */
  datatype Attachment = Attachment(kind: string)

  /** An inbound message: an optional `text` and an optional `attachments` array. */
  datatype Message = Message(text: Option<string>, attachments: Option<seq<Attachment>>)

  /** A button click; its `payload` is the token configured on the button. */
  datatype Postback = Postback(payload: Option<string>)

  /** One element of `entry.messaging`; each of its three parts may be absent. */
  datatype MessagingEvent = MessagingEvent(sender: Option<Sender>, message: Option<Message>, postback: Option<Postback>)

  /** One element of the payload's `entry` array. */
  datatype Entry = Entry(messaging: Option<seq<MessagingEvent>>)

  /** The JSON body of a POST to /webhook; `objectType` is its `object` field (a reserved word in Dafny). */
  datatype Payload = Payload(objectType: Option<string>, entry: Option<seq<Entry>>)

  /** The only outbound message shape: `{ text }`. */
  datatype ReplyMessage = ReplyMessage(text: string)

  /** The body `{ recipient: { id }, message }` of one request to the Send API. */
  datatype SendRequest = SendRequest(recipientId: string, message: ReplyMessage)
}
