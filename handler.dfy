/** The `POST /query` endpoint.

    One request runs retrieval and then, only when a row was selected, one call
    of the external API; every outcome becomes exactly one HTTP response:
      - retrieval threw (the query could not be embedded or scored): 500;
      - retrieval returned -1: 400 with a fixed message, and no API call;
      - the API answered: 200 with its data passed through unchanged;
      - the API call failed: 500 with a fixed message.
    The model returns the response together with the list of API calls made, so
    that "the API is not called" is something a contract can state.
 */
module QueryHandler {
  import opened Similarity
  import opened Retrieval
  import opened Gateway

  const BadRequest: int := 400
  const Ok: int := 200
  const InternalServerError: int := 500

  /** The body of the 400 response. */
  const NoContextMessage: string := "No suitable context found for the provided query."

  /** The body of every 500 response. */
  const FailureMessage: string := "Failed to get a response from the external API."

  /** A plain-text body (`res.send`) or a JSON body (`res.json`). */
  datatype Body<A> = Text(text: string) | Json(payload: A)

  datatype Response<A> = Response(status: int, body: Body<A>)

  /** What one request produces: the response, and the request bodies posted to
      the external API on the way, in order. */
  datatype Exchange<A> = Exchange(response: Response<A>, gatewayCalls: seq<Payload>)

  /** The outcome of embedding the user's query: its similarity to the context
      row of each index, or a thrown failure. */
  datatype Scoring = Embedded(similarity: int -> Score) | Threw

  /** The score of each context row, in row order, as the loop computes them. */
  function RowScores(contextRows: seq<string>, similarity: int -> Score): seq<Score> {
    seq(|contextRows|, i => similarity(i))
  }

  /** The handler for one request with query `userQuery`. */
  function HandleQuery<A>(userQuery: string, contextRows: seq<string>, scoring: Scoring,
                          ask: Payload -> Reply<A>): (ex: Exchange<A>)
    ensures |ex.gatewayCalls| <= 1
    ensures ex.response.status in {Ok, BadRequest, InternalServerError}
    ensures ex.response.status == Ok <==> ex.response.body.Json?
    ensures ex.response.status == BadRequest ==> ex.gatewayCalls == []
  {
    match scoring
    case Threw =>
      Exchange(Response(InternalServerError, Text(FailureMessage)), [])
    case Embedded(similarity) =>
      var scores := RowScores(contextRows, similarity);
      var mostSimilarIndex := Select(scores);
      if mostSimilarIndex == NoMatch then
        Exchange(Response(BadRequest, Text(NoContextMessage)), [])
      else
        SelectInRange(scores);
        var mostRelevantContext := contextRows[mostSimilarIndex];
        var call := BuildPayload(mostRelevantContext, userQuery);
        match QueryExternalAPI(ask, mostRelevantContext, userQuery)
        case Answered(data) => Exchange(Response(Ok, Json(data)), [call])
        case Failed => Exchange(Response(InternalServerError, Text(FailureMessage)), [call])
  }

  /** The request is answered 400 exactly when retrieval succeeded but no row
      scored above -1; the body is then the fixed message and the API is not called. */
  lemma BadRequestIffNoMatch<A>(userQuery: string, contextRows: seq<string>, scoring: Scoring,
                                ask: Payload -> Reply<A>)
    ensures var ex := HandleQuery(userQuery, contextRows, scoring, ask);
      && (ex.response.status == BadRequest <==>
            scoring.Embedded? &&
            NoneExceeds(RowScores(contextRows, scoring.similarity), |contextRows|, Floor))
      && (ex.response.status == BadRequest ==>
            ex.response.body == Text(NoContextMessage) && ex.gatewayCalls == [])
  {
    if scoring.Embedded? {
      SelectNoMatchIff(RowScores(contextRows, scoring.similarity));
    }
  }

  /** With no context rows at all, a request whose query embeds is answered 400
      and the API is not called. */
  lemma EmptyCorpusIsBadRequest<A>(userQuery: string, scoring: Scoring, ask: Payload -> Reply<A>)
    requires scoring.Embedded?
    ensures HandleQuery(userQuery, [], scoring, ask) ==
      Exchange(Response(BadRequest, Text(NoContextMessage)), [])
  {
  }

  /** When row `i` is the first row of maximal score above -1, the API is called
      exactly once, with that row as context and the user's query as question, and
      its outcome decides the response: its data verbatim with 200, or 500. */
  lemma MatchCallsGatewayOnce<A>(userQuery: string, contextRows: seq<string>,
                                 similarity: int -> Score, ask: Payload -> Reply<A>, i: int)
    requires IsFirstMaximum(RowScores(contextRows, similarity), |contextRows|, i)
    ensures var ex := HandleQuery(userQuery, contextRows, Embedded(similarity), ask);
      && ex.gatewayCalls == [Payload(Inputs(userQuery, contextRows[i]))]
      && ex.response == match ask(Payload(Inputs(userQuery, contextRows[i])))
           case Answered(data) => Response(Ok, Json(data))
           case Failed => Response(InternalServerError, Text(FailureMessage))
  {
    SpecDeterminesSelect(RowScores(contextRows, similarity), i);
  }

  /** The API is called exactly when retrieval succeeded and some row scored above -1. */
  lemma GatewayCalledIffMatch<A>(userQuery: string, contextRows: seq<string>, scoring: Scoring,
                                 ask: Payload -> Reply<A>)
    ensures var ex := HandleQuery(userQuery, contextRows, scoring, ask);
      ex.gatewayCalls != [] <==>
        scoring.Embedded? &&
        !NoneExceeds(RowScores(contextRows, scoring.similarity), |contextRows|, Floor)
  {
    if scoring.Embedded? {
      SelectNoMatchIff(RowScores(contextRows, scoring.similarity));
    }
  }

  /** The response is 200 exactly when the API was called and answered, and its
      body is then the API's data, unchanged. */
  lemma OkIffGatewayAnswered<A>(userQuery: string, contextRows: seq<string>, scoring: Scoring,
                                ask: Payload -> Reply<A>)
    ensures var ex := HandleQuery(userQuery, contextRows, scoring, ask);
      && (ex.response.status == Ok <==>
            |ex.gatewayCalls| == 1 && ask(ex.gatewayCalls[0]).Answered?)
      && (ex.response.status == Ok ==>
            ex.response.body == Json(ask(ex.gatewayCalls[0]).data))
  {
  }

  /** The response is 500, with the fixed message, exactly when retrieval threw
      or the API call failed. */
  lemma ServerErrorIffFailure<A>(userQuery: string, contextRows: seq<string>, scoring: Scoring,
                                 ask: Payload -> Reply<A>)
    ensures var ex := HandleQuery(userQuery, contextRows, scoring, ask);
      && (ex.response.status == InternalServerError <==>
            scoring.Threw? || (|ex.gatewayCalls| == 1 && ask(ex.gatewayCalls[0]).Failed?))
      && (ex.response.status == InternalServerError ==>
            ex.response.body == Text(FailureMessage))
  {
  }

  /** Two rows, the query closest to the first: the API is asked about the first
      row, and its answer is relayed with 200. */
  lemma CapitalOfFranceExample<A>(ask: Payload -> Reply<A>, answer: A)
    requires ask(Payload(Inputs("What is the capital of France?",
                                "Paris is the capital of France."))) == Answered(answer)
    ensures var ex := HandleQuery("What is the capital of France?",
                                  ["Paris is the capital of France.", "The sun is a star."],
                                  Embedded(i => if i == 0 then Num(0.9) else Num(0.1)), ask);
      && ex.gatewayCalls == [Payload(Inputs("What is the capital of France?",
                                            "Paris is the capital of France."))]
      && ex.response == Response(Ok, Json(answer))
  {
    var rows := ["Paris is the capital of France.", "The sun is a star."];
    var similarity: int -> Score := i => if i == 0 then Num(0.9) else Num(0.1);
    assert RowScores(rows, similarity) == [Num(0.9), Num(0.1)];
    MatchCallsGatewayOnce("What is the capital of France?", rows, similarity, ask, 0);
  }

  /** The same request when the API call fails: 500 with the fixed message, which
      carries nothing of the failure itself. */
  lemma GatewayFailureExample<A>(ask: Payload -> Reply<A>)
    requires ask(Payload(Inputs("What is the capital of France?",
                                "Paris is the capital of France."))) == Failed
    ensures HandleQuery("What is the capital of France?",
                        ["Paris is the capital of France.", "The sun is a star."],
                        Embedded(i => if i == 0 then Num(0.9) else Num(0.1)), ask).response
            == Response(InternalServerError, Text(FailureMessage))
  {
    var rows := ["Paris is the capital of France.", "The sun is a star."];
    var similarity: int -> Score := i => if i == 0 then Num(0.9) else Num(0.1);
    assert RowScores(rows, similarity) == [Num(0.9), Num(0.1)];
    MatchCallsGatewayOnce("What is the capital of France?", rows, similarity, ask, 0);
  }
}
