/** The boundary to the chat platform: `sendMessages` is seen only as the
    batches it is handed, one per call. */
module Delivery {
  import opened Types

  class Outbox {
    /** Every batch handed to `sendMessages`, oldest first. */
    ghost var batches: seq<seq<Message>>

    constructor ()
      ensures batches == []
    {
      batches := [];
    }

    /** One call of `sendMessages`. */
    method Send(messages: seq<Message>)
      modifies this
      ensures batches == old(batches) + [messages]
    {
      batches := batches + [messages];
    }
  }

  /** `after` is `before` extended by `messages` as one batch when there is
      anything to send, and equal to `before` otherwise. */
  ghost predicate SentOnceIfAny(before: seq<seq<Message>>, after: seq<seq<Message>>, messages: seq<Message>)
  {
    after == before + (if messages == [] then [] else [messages])
  }
}
