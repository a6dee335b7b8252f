/**
 * The values that travel through the notification pipeline: a decoded
 * JSON value, the mail request handed to the mailer, and the message
 * placed on the queue.
 */
module Messages {

  /** A JSON value as `JSON.parse` yields it (numbers restricted to integers), plus `undefined` for a missing property. */
  datatype Json =
    | Undefined
    | Null
    | Bool(b: bool)
    | Num(n: int)
    | Str(s: string)
    | Arr(items: seq<Json>)
    | Obj(fields: map<string, Json>)

  /** `value[key]`: the property of an object, `undefined` for a missing key or for a value that is not an object. */
  function Property(value: Json, key: string): Json {
    if value.Obj? && key in value.fields then value.fields[key] else Undefined
  }

  /** `null` and `undefined` cannot be destructured. */
  predicate IsNullish(value: Json) {
    value.Undefined? || value.Null?
  }

  /** The argument of `sendMail`: the four envelope properties the mailer needs. */
  datatype MailRequest = MailRequest(email: Json, data: Json, template: Json, subject: Json)

  /** What the mailer reports: the provider's message id, or the error it threw. */
  datatype SendResult<E> = Sent(messageId: string) | SendFailed(error: E)

  /** A queue message: the `type` message attribute, the body (the envelope before serialisation) and the queue URL. */
  datatype QueueMessage = QueueMessage(typeAttribute: string, body: Json, queueUrl: string)

  /**
   * The message queue as the producer sees it: `sendMessage` either
   * accepts a message, which is then held by the queue, or fails.
   */
  class MessageQueue {
    /** Whether the queue currently accepts messages. */
    var online: bool
    /** The messages accepted so far, in order. */
    var messages: seq<QueueMessage>

    constructor(online: bool)
      ensures this.online == online && messages == []
    {
      this.online := online;
      messages := [];
    }

    /** `sendMessage(...).promise()`: accepted exactly when the queue is online. */
    method SendMessage(m: QueueMessage) returns (accepted: bool)
      modifies this
      ensures accepted == old(online) && online == old(online)
      ensures messages == old(messages) + (if accepted then [m] else [])
    {
      accepted := online;
      if accepted {
        messages := messages + [m];
      }
    }
  }
}
