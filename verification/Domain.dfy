/** Vocabulary shared by the whole pipeline: channels, the (event, channel) pair a delivery is
    keyed by, and the stock Option type. */
module Domain {

  datatype Option<+T> = None | Some(value: T)

  datatype Channel = Telegram | Email | WebPush

  /** One alert on one channel: what the outbox stages, the broker carries and the lease covers. */
  datatype Pair = Pair(event: nat, channel: Channel)

  /** What became of a statement or publish, as seen by the caller and by the store: answered,
      failed with no effect, or failed towards the caller although the effect landed. */
  datatype Outcome = Answered | ErrLost | ErrLanded {
    predicate Lands() { Answered? || ErrLanded? }
  }
}
