/** Tapes, request matchers, agents and upstream transports: the vocabulary shared by
    every transport of the fork engine.

    Bytes are strings of one character per byte. An agent is a deterministic machine: what it does
    next is a function of the replies it has received so far. An upstream transport may keep any
    state it likes, so its reply is a function of all the requests it has received. */
module Tapes {

  type Bytes = string
  type Fingerprint = string

  datatype Request = Request(verb: string, url: string, headers: Bytes, body: Bytes)

  datatype Exchange = Exchange(request: Bytes, response: Bytes)

  type Tape = seq<Exchange>

  /** Why a transport raised instead of answering. */
  datatype Failure =
    | Diverged(step: nat)        // fingerprint mismatch with the recorded request
    | NoSuchExchange(step: nat)  // lookup past the end of a tape
    | UpstreamFailed             // the inner transport raised

  datatype Reply = Answer(body: Bytes) | Raised(failure: Failure)

  /** `Throw` is an agent that lets an exception escape, so that no branch is returned. */
  datatype Action = Send(request: Request) | Return(output: Bytes) | Throw

  type Agent = seq<Reply> -> Action

  type Upstream = seq<Request> -> Reply

  datatype Matcher = Matcher(
    stored: Request -> Bytes,
    live: Request -> Fingerprint,
    storedPrint: Bytes -> Fingerprint)
  {
    /** The one invariant a matcher must keep: what is persisted for a request fingerprints
        like the request itself. */
    ghost predicate Contract() {
      forall q: Request :: storedPrint(stored(q)) == live(q)
    }
  }

  /** Both shipped matchers store a canonical form and hash it. */
  function Hashed(sha: Bytes -> Fingerprint, canonical: Request -> Bytes): (m: Matcher)
    ensures m.Contract()
  {
    Matcher(canonical, q => sha(canonical(q)), sha)
  }
}
