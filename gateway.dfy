/** The call to the external question-answering API (`queryExternalAPI`).

    The HTTP transport, its headers and the API key are not modelled: one call of
    the remote API is a function `ask` from the request body to a reply, which is
    either the response data or a thrown failure. The response data is opaque
    (type parameter `A`): it is never inspected, only passed on.
 */
module Gateway {

  /** The `inputs` object of the request body. */
  datatype Inputs = Inputs(question: string, context: string)

  /** The request body `{ inputs: { question, context } }`. */
  datatype Payload = Payload(inputs: Inputs)

  /** One remote call: the response's `data`, or a failure (transport error,
      non-2xx status). */
  datatype Reply<A> = Answered(data: A) | Failed

  /** The request body for a selected context and the user's question. The
      parameters come in the order (context, question); the record holds them
      under their own names, so neither can land in the other's slot. */
  function BuildPayload(context: string, question: string): (p: Payload)
    ensures p.inputs.question == question
    ensures p.inputs.context == context
  {
    Payload(Inputs(question, context))
  }

  /** Different (context, question) pairs never produce the same request body. */
  lemma BuildPayloadInjective(c1: string, q1: string, c2: string, q2: string)
    requires BuildPayload(c1, q1) == BuildPayload(c2, q2)
    ensures c1 == c2 && q1 == q2
  {
  }

  /** Post the request body once. A failure is caught, logged and rethrown, so the
      caller sees it unchanged; on success the response data is returned as is. */
  function QueryExternalAPI<A>(ask: Payload -> Reply<A>, context: string, question: string): (r: Reply<A>)
    ensures r.Failed? <==> ask(Payload(Inputs(question, context))).Failed?
    ensures r.Answered? ==> r.data == ask(Payload(Inputs(question, context))).data
  {
    ask(BuildPayload(context, question))
  }
}
