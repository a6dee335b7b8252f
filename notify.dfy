/**
 * The notification dispatcher (src/processor/notify.ts): a decoded
 * queue message is mailed when its `notifyBy` is an array that includes
 * "email"; any other message is skipped without error.
 */
module Notify {
  import opened Messages
  import opened Errors

  /** The channels the dispatcher knows; only the first, "email", is routed. */
  const SystemTypes: seq<string> := ["email"]

  /** `items.includes(s)` for a string `s`: a left-to-right scan for an element equal to `s`. */
  function IncludesString(items: seq<Json>, s: string): (r: bool)
    ensures r <==> Str(s) in items
  {
    if |items| == 0 then false
    else if items[0] == Str(s) then true
    else IncludesString(items[1..], s)
  }

  /** The guard: `Array.isArray(notifyBy) && notifyBy.includes(systemTypes[0])`. */
  predicate WantsEmail(notifyBy: Json) {
    notifyBy.Arr? && IncludesString(notifyBy.items, SystemTypes[0])
  }

  /** How `notify` ends: it completes, or it throws. */
  datatype Outcome = Completed | Threw(error: Thrown)

  /** The `sendMail` calls `notify` issued, in order, and how it ended. */
  datatype Dispatch = Dispatch(sends: seq<MailRequest>, outcome: Outcome)

  /** The request `notify` hands to `sendMail`: the message's email, data, template and subject. */
  function MailRequestOf(message: Json): MailRequest {
    MailRequest(Property(message, "email"), Property(message, "data"), Property(message, "template"), Property(message, "subject"))
  }

  /**
   * `notify(message)`, with `sendMail` standing for the mailer (template
   * rendering and the email provider). Destructuring `null` or
   * `undefined` throws a TypeError before anything is sent.
   */
  function Notify(message: Json, sendMail: MailRequest -> SendResult<Thrown>): (r: Dispatch)
    ensures |r.sends| <= 1
    ensures |r.sends| == 1 <==>
      !IsNullish(message) && Property(message, "notifyBy").Arr? && Str("email") in Property(message, "notifyBy").items
    ensures r.sends != [] ==> r.sends[0] == MailRequest(
      Property(message, "email"), Property(message, "data"), Property(message, "template"), Property(message, "subject"))
    ensures r.outcome.Threw? <==> IsNullish(message) || (r.sends != [] && sendMail(r.sends[0]).SendFailed?)
    ensures r.sends != [] && sendMail(r.sends[0]).SendFailed? ==> r.outcome == Threw(sendMail(r.sends[0]).error)
  {
    if IsNullish(message) then
      Dispatch([], Threw(Unknown("TypeError", "Cannot destructure the notification message")))
    else if WantsEmail(Property(message, "notifyBy")) then
      var request := MailRequestOf(message);
      match sendMail(request)
      case Sent(_) => Dispatch([request], Completed)
      case SendFailed(error) => Dispatch([request], Threw(error))
    else
      Dispatch([], Completed)
  }

  /** "email" listed several times still gives a single send: the guard is a membership test. */
  lemma RepeatedEmailSendsOnce(message: Json, sendMail: MailRequest -> SendResult<Thrown>, n: nat)
    requires n >= 1 && message.Obj? && Property(message, "notifyBy") == Arr(seq(n, _ => Str("email")))
    ensures |Notify(message, sendMail).sends| == 1
  {
    assert Property(message, "notifyBy").items[0] == Str("email");
  }

  /** A message for an unknown channel, such as ["sms"], sends nothing and completes. */
  lemma UnknownChannelIsSkipped(message: Json, sendMail: MailRequest -> SendResult<Thrown>)
    requires message.Obj? && Property(message, "notifyBy") == Arr([Str("sms")])
    ensures Notify(message, sendMail) == Dispatch([], Completed)
  {
  }

  /** A `notifyBy` that is not an array, a string "email" included, sends nothing and completes. */
  lemma NonArrayChannelIsSkipped(message: Json, sendMail: MailRequest -> SendResult<Thrown>)
    requires message.Obj? && !Property(message, "notifyBy").Arr?
    ensures Notify(message, sendMail) == Dispatch([], Completed)
  {
  }
}
