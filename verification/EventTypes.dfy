/** The escrow events the listener knows. */
module EventTypes {
  datatype EventType =
    | EscrowCreated
    | EscrowFunded
    | EscrowReleased
    | EscrowRefunded
    | EscrowCancelled
    | EscrowDisputed
}
