/**
 * The server-sent-events emitter the answer is streamed through, reduced to
 * what the core observes: the chunks sent, in order, and how the stream ended.
 */
module Sse {

  /** Why a stream ended with an error. */
  datatype Cause =
    | InvalidSessionId          // no such session, or it belongs to another user
    | InvalidSessionIdFormat    // the session id is not a decimal long
    | InvalidApiKey             // the API key does not split into id and secret
    | ConnectionFailed          // the HTTP call could not be made
    | HttpStatus(code: int)     // the HTTP reply status was not 2xx
    | ReadFailed                // reading the next reply line failed
    | MalformedPayload          // a data payload was not valid JSON
    | BadEnvelope               // a JSON envelope had an unexpected shape (cast or null dereference)
    | CallbackFailed            // the completion callback threw

  datatype EmitterState = Open | Completed | Failed(cause: Cause)

  class SseEmitter {
    var sent: seq<string>
    var state: EmitterState

    constructor ()
      ensures sent == [] && state == Open
    {
      sent := [];
      state := Open;
    }

    /** send(event().data(data)) on a stream that is still open. */
    method Send(data: string)
      requires state == Open
      modifies this
      ensures sent == old(sent) + [data] && state == Open
    {
      sent := sent + [data];
    }

    /** complete(): ends an open stream normally; an ended stream stays as it is. */
    method Complete()
      modifies this
      ensures sent == old(sent)
      ensures state == if old(state).Open? then Completed else old(state)
    {
      if state.Open? {
        state := Completed;
      }
    }

    /** completeWithError(cause): ends an open stream with an error; an ended stream stays as it is. */
    method CompleteWithError(cause: Cause)
      modifies this
      ensures sent == old(sent)
      ensures state == if old(state).Open? then Failed(cause) else old(state)
    {
      if state.Open? {
        state := Failed(cause);
      }
    }
  }
}
