/** Outgoing mail. Sending is fire-and-forget in the application, so a send
    is an entry appended to a log; only the recipient, the person greeted and
    the link path are kept of each message. */
module Mail {
  import opened Js

  datatype Kind =
    | Verification                                          // "confirmer votre adresse mail"
    | JoinRequest(requesterName: Value, requesterEmail: Value)  // "souhaite rejoindre votre établissement"

  /** A message to `to`, greeting `addressee`, whose link has path `link`. */
  datatype Message = Message(kind: Kind, to: Value, addressee: Value, link: string)

  /** The verification mail `sendVerifEmail(name, email, url)` sends. */
  function VerificationMail(name: Value, email: Value, link: string): Message {
    Message(Verification, email, name, link)
  }

  class Outbox {
    var sent: seq<Message>

    constructor ()
      ensures sent == []
    {
      sent := [];
    }

    /** `transporter.sendMail(...)`. */
    method Send(m: Message)
      modifies this
      ensures sent == old(sent) + [m]
    {
      sent := sent + [m];
    }
  }
}
