/**
 * What the pages learn from the REST backend. A `fetch` call is not modelled;
 * its outcome is an input to the handler that awaited it.
 */
module Remote {
  import opened Wrappers

  /** Record identifiers are compared only for equality. */
  type Id = string

  /**
   * The outcome of one request: either `fetch` itself rejected (no response),
   * or a response with its HTTP status and its body decoded as JSON
   * (`None` when `response.json()` would throw).
   */
  datatype Reply<T> = NetworkError | Replied(status: int, json: Option<T>)

  /** `response.ok`: the status is in the range 200-299. */
  predicate IsOk(status: int) {
    200 <= status <= 299
  }

  /** The only statuses that the load, add and edit handlers check for. */
  predicate IsReportedError(status: int) {
    status == 400 || status == 404
  }

  /** Load, add and edit continue whenever a response arrived whose status is not 400 or 404. */
  predicate Accepted<T>(reply: Reply<T>) {
    reply.Replied? && !IsReportedError(reply.status)
  }

  /** Load and add additionally read the JSON body; a body that does not decode aborts too. */
  function AcceptedBody<T>(reply: Reply<T>): (r: Option<T>)
    ensures r.Some? <==> Accepted(reply) && reply.json.Some?
    ensures r.Some? ==> r == reply.json
  {
    if Accepted(reply) then reply.json else None
  }

  /** The delete handlers continue only on `response.ok`. */
  predicate Succeeded<T>(reply: Reply<T>)
    ensures Succeeded(reply) ==> Accepted(reply)
  {
    reply.Replied? && IsOk(reply.status)
  }

  /**
   * The two checks differ: every reply a delete accepts is one that add or
   * edit would accept too. A reply with any other status that is neither
   * 2xx nor 400/404 (500, say) counts as a success for add and edit, and
   * as a failure for delete.
   */
  lemma StatusAsymmetry<T>(reply: Reply<T>)
    ensures Succeeded(reply) ==> Accepted(reply)
    ensures reply.Replied? && !IsOk(reply.status) && !IsReportedError(reply.status) ==>
      Accepted(reply) && !Succeeded(reply)
  {
  }

  /** A notification shown to the user; the text of error notifications is not modelled. */
  datatype Toast = Success(message: string) | Error
}
