/** What an upstream does with one request, and the generators that stand between
  * its response and the client.
  *
  * An asynchronous generator that is closed before it was ever pulled does not
  * run its body, so its `finally` does not run either (PEP 525).
  */
module Upstream {
  import opened Options
  import opened Routing

  type Bytes = seq<nat>

  /** `Transport` is an error of the HTTP client itself; `Coded` one the gateway's
    * own error type already carries. */
  datatype PullError = Transport | Mapped(code: string)

  datatype Ending = Ends | Breaks(error: PullError)

  /** One candidate's behaviour: nothing to authenticate with, no answer, or a
    * status with a body that is read chunk by chunk and may break. */
  datatype Behaviour =
    | NoCredential
    | Unreachable
    | Answers(status: nat, chunks: seq<Bytes>, ending: Ending)

  datatype Item = Yielded(chunk: Bytes) | Stopped | Raised(error: PullError)

  datatype GeneratorState = NotStarted | Suspended | Finished

  class Response {
    var closed: bool
    const chunks: seq<Bytes>
    const ending: Ending

    constructor (chunks: seq<Bytes>, ending: Ending)
      ensures !closed && this.chunks == chunks && this.ending == ending
    {
      this.closed, this.chunks, this.ending := false, chunks, ending;
    }
  }

  /** `_iterate`: the raw chunks, with a `finally` that closes the response. */
  class Iterate {
    const response: Response
    var state: GeneratorState
    var pos: nat

    constructor (response: Response)
      ensures this.response == response && state == NotStarted && pos == 0
    {
      this.response, this.state, this.pos := response, NotStarted, 0;
    }

    method Next() returns (item: Item)
      modifies this, response`closed
      ensures old(state).Finished? ==> item == Stopped && state == old(state) && pos == old(pos) && response.closed == old(response.closed)
      ensures !old(state).Finished? && old(pos) < |response.chunks| ==>
        item == Yielded(response.chunks[old(pos)]) && state == Suspended && pos == old(pos) + 1
        && response.closed == old(response.closed)
      ensures !old(state).Finished? && old(pos) >= |response.chunks| ==>
        state == Finished && pos == old(pos) && response.closed
        && item == match response.ending case Ends => Stopped case Breaks(e) => Raised(e)
    {
      if state.Finished? {
        return Stopped;
      }
      if pos < |response.chunks| {
        state, pos := Suspended, pos + 1;
        return Yielded(response.chunks[pos - 1]);
      }
      state := Finished;
      response.closed := true;
      match response.ending {
        case Ends => return Stopped;
        case Breaks(e) => return Raised(e);
      }
    }

    /** `aclose()`. */
    method Close()
      modifies this, response`closed
      ensures state == Finished && pos == old(pos)
      ensures response.closed == (old(response.closed) || old(state).Suspended?)
    {
      if state.Suspended? {
        response.closed := true;
      }
      state := Finished;
    }

    /** The coroutine is cancelled while this generator waits for its next chunk. */
    method Cancel()
      requires !state.Finished?
      modifies this, response`closed
      ensures state == Finished && pos == old(pos) && response.closed
    {
      response.closed := true;
      state := Finished;
    }
  }

  /** `_with_first`: gives back the chunk pulled ahead, then the rest, with a
    * `finally` that closes the source. */
  class WithFirst {
    const first: Bytes
    const source: Iterate
    var state: GeneratorState

    constructor (first: Bytes, source: Iterate)
      ensures this.first == first && this.source == source && state == NotStarted
    {
      this.first, this.source, this.state := first, source, NotStarted;
    }

    /** Started on a source that has given its first chunk and has not ended. */
    ghost predicate Live()
      reads this, source, source.response
    {
      && 1 <= source.pos <= |source.response.chunks|
      && first == source.response.chunks[0]
      && (state.NotStarted? ==> source.pos == 1 && source.state.Suspended?)
      && (state.Suspended? ==> source.state.Suspended?)
    }

    /** How many chunks have been handed on. */
    ghost function Given(): nat
      reads this, source
    {
      if state.NotStarted? then 0 else source.pos
    }

    method Next() returns (item: Item)
      requires Live() && !state.Finished?
      modifies this, source, source.response`closed
      ensures Live()
      ensures old(Given()) < |source.response.chunks| ==>
        item == Yielded(source.response.chunks[old(Given())]) && state == Suspended
        && Given() == old(Given()) + 1 && source.response.closed == old(source.response.closed)
      ensures old(Given()) == |source.response.chunks| ==>
        state == Finished && source.response.closed && Given() == old(Given())
        && item == match source.response.ending case Ends => Stopped case Breaks(e) => Raised(e)
    {
      if state.NotStarted? {
        state := Suspended;
        return Yielded(first);
      }
      item := source.Next();
      if !item.Yielded? {
        source.Close();
        state := Finished;
      }
    }

    /** The coroutine is cancelled while the source waits for its next chunk. */
    method Cancel()
      requires Live() && state.Suspended?
      modifies this, source, source.response`closed
      ensures Live() && state == Finished && source.response.closed && source.pos == old(source.pos)
    {
      source.Cancel();
      source.Close();
      state := Finished;
    }

    method Close()
      requires Live()
      modifies this, source, source.response`closed
      ensures state == Finished
      ensures source.response.closed == (old(source.response.closed) || old(state).Suspended?)
      ensures source.pos == old(source.pos)
    {
      if state.Suspended? {
        source.Close();
      }
      state := Finished;
    }
  }

  /** What the response object relays: the raw iterator of an error response, or a
    * stream whose first chunk has been seen. */
  datatype Relayed = Raw(iterate: Iterate) | Prefixed(withFirst: WithFirst)

  function ResponseOf(body: Relayed): Response {
    match body case Raw(i) => i.response case Prefixed(w) => w.source.response
  }

  ghost function Objects(body: Relayed): set<object> {
    match body case Raw(i) => {i} case Prefixed(w) => {w, w.source}
  }

  /** Nothing of the body has been handed to the client yet. */
  ghost predicate Unread(body: Relayed)
    reads Objects(body), ResponseOf(body)
  {
    !ResponseOf(body).closed &&
    match body
    case Raw(i) => i.state.NotStarted? && i.pos == 0
    case Prefixed(w) => w.state.NotStarted? && w.Live()
  }
}
