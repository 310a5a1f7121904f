/** The external services the core consults: the language-model calls (through
    their JSON decoding and schema validation) and the popup and gate helpers.
    Each is an object that records the questions put to it and may answer
    anything; a contract may therefore rely only on the shape of an answer,
    never on its content. */
module Oracles {

  /** What one call of a model helper yields once its reply is decoded:
      - `Parsed`: the reply decoded and passed validation;
      - `Malformed`: a decoding or validation error (the callers retry);
      - `Crashed`: any other exception (the callers give up). */
  datatype Reply<T> = Parsed(value: T) | Malformed | Crashed

  class Oracle<Q, A> {
    /** Every question asked so far, oldest first. */
    var asked: seq<Q>
    /** The reply to each of those questions, in the same order. */
    var answered: seq<Reply<A>>

    constructor ()
      ensures asked == [] && answered == []
    {
      asked := [];
      answered := [];
    }

    method Ask(q: Q) returns (r: Reply<A>)
      modifies this
      ensures asked == old(asked) + [q]
      ensures answered == old(answered) + [r]
    {
      r :| true;
      asked := asked + [q];
      answered := answered + [r];
    }
  }
}
