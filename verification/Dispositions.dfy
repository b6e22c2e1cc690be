/** What a sender learns of a delivery. */
module Dispositions {

  /** The remote state of a delivery, in the senders' terms: PN_RECEIVED says only that the
      peer is at work on it; of the others they tell PN_ACCEPTED from the rest. */
  datatype Outcome = Informational | Accepted | NotAccepted
}
