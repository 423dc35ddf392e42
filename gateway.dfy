/** The SMS provider as the message model sees it: one request per call and a
    reply that is either the provider's message resource or a client exception. */
module Gateway {
  import opened Common

  /** `{from, to, body}` as passed to the provider, phones as stored. */
  datatype Sms = Sms(from: string, to: string, body: string)

  datatype Reply =
    /** The message resource the provider returns: its delivery status, its
        `date_sent` and, when it was not sent, its `error_message` and `error_code`. */
    | Reply(status: string, dateSent: Time, errorMessage: string, errorCode: string)
    /** The client threw before any resource came back (no connection, rejected credentials). */
    | TransportError(reason: string)

  /** The provider's behaviour: its reply to the call numbered `k` (counting
      from 0) carrying the given request. The call number lets each send get its
      own `date_sent`, and lets a request refused once be accepted on a retry. */
  type Provider = (nat, Sms) -> Reply

  /** The provider. What it answers is fixed by `respond`; `sent` records every
      request made to it, in order, so `|sent|` is the number of the next call. */
  class SmsGateway {
    const respond: Provider
    var sent: seq<Sms>

    constructor (respond: Provider)
      ensures this.respond == respond && sent == []
    {
      this.respond := respond;
      sent := [];
    }

    /** One call to the provider: the request is recorded and answered. */
    method Deliver(sms: Sms) returns (reply: Reply)
      modifies this
      ensures sent == old(sent) + [sms]
      ensures reply == respond(|old(sent)|, sms)
    {
      reply := respond(|sent|, sms);
      sent := sent + [sms];
    }
  }
}
