# Query server: top-1 context retrieval and the `/query` outcome

A Dafny model of the part of the server in `src/index.js` that makes decisions:

- **Selection** (`findMostSimilarIndex`): given the similarity score of the user's
  query to each context row, a left-to-right scan keeps the best score so far
  (starting at -1) and its index (starting at the sentinel -1), replacing them only
  on a strictly greater score. Module `Retrieval` (file `retrieval.dfy`) holds the
  loop as a method, the loop's meaning as a function (`ScanPrefix`, `Select`), a
  declarative description of the result (`SelectionSpec`: the sentinel when no
  score is above -1, otherwise the first index of the maximum), and the proofs that
  the three agree.
- **Scores** (`similarity.dfy`): a score is a JavaScript number, `Num(v)`, or `NaN`
  (what a zero-magnitude embedding produces); `>` against a number is false for NaN.
- **Request body for the external API** (`queryExternalAPI`, `gateway.dfy`): the
  record `{inputs: {question, context}}`, and one remote call as an opaque function
  from that record to either the response data or a failure.
- **The `/query` handler** (`handler.dfy`): the outcome of one request as a
  function returning the HTTP response together with the list of request bodies
  posted to the external API, so that "the API is not called" is a checkable
  statement. Retrieval that throws gives 500; the sentinel gives 400 with
  "No suitable context found for the provided query." and no API call; otherwise
  the API is asked once with the selected row and the query, and its data is
  relayed with 200, or its failure becomes 500 with
  "Failed to get a response from the external API.".

The scan starts from -1 and compares strictly, so a non-empty corpus whose scores
are all at most -1 or NaN, including a valid cosine similarity of exactly -1, also
yields -1 and a 400 (`Retrieval.SelectNoMatchIff`, `Retrieval.AllAtFloorIsNoMatch`).

## Model

| member | source | states |
|---|---|---|
| Similarity.NaNExceedsNothing | src/index.js:70 | a NaN similarity is never greater than (nor equal to) the best score; that such a row is never returned is `Retrieval.NaNNeverSelected` |
| Retrieval.ScanPrefixInvariant | src/index.js:61-74 | loop invariant: after rows [0,k) the pair is (-1, -1) when no score exceeded -1, otherwise the index is the first position of the maximum of the scores so far and the best score is its value |
| Retrieval.SelectionSpecUnique | src/index.js:61-76 | at most one index is "the sentinel with nothing above -1" or "the first maximum above -1", so this description fixes the result |
| Retrieval.SelectMeetsSpec | src/index.js:59-77 | the index the loop returns meets that description |
| Retrieval.SpecDeterminesSelect | src/index.js:59-77 | any index meeting the description is the one the loop returns |
| Retrieval.SelectInRange | src/index.js:61-76 | the result is -1 or a valid row index in [0, number of rows) |
| Retrieval.SelectEmpty | src/index.js:61-64 | with no rows the loop body never runs and the result is -1 |
| Retrieval.SelectNoMatchIff | src/index.js:61-76 | the result is -1 if and only if no score is a number above -1, so a non-empty corpus scoring at most -1 or NaN everywhere gives -1 |
| Retrieval.SelectIsMaximum | src/index.js:70-73 | a selected row's score is a number above -1 and at least every other numeric score |
| Retrieval.SelectIsFirst | src/index.js:70 | ties go to the lowest index: every earlier row scores strictly less or is NaN |
| Retrieval.NaNNeverSelected | src/index.js:70 | a row scoring NaN is never the result |
| Retrieval.TieGoesToFirstRow | src/index.js:70-73 | two rows with the same score above -1 select row 0 |
| Retrieval.AllAtFloorIsNoMatch | src/index.js:61-76 | any number of rows all scoring exactly -1 give -1 |
| Retrieval.FindMostSimilarIndex | src/index.js:59-77 | the loop returns the first index of the maximum above -1, or -1, equal to the scan function `Select` |
| Gateway.BuildPayload | src/index.js:82-87 | the request body carries the question under `inputs.question` and the context under `inputs.context`, though the parameters come as (context, question) |
| Gateway.BuildPayloadInjective | src/index.js:82-87 | different (context, question) pairs give different request bodies |
| Gateway.QueryExternalAPI | src/index.js:80-94 | one call with that body; a failure is rethrown unchanged, success returns the response data unchanged |
| QueryHandler.HandleQuery | src/index.js:97-123 | at most one API call; status is 200, 400 or 500; the body is JSON exactly for 200; a 400 makes no API call |
| QueryHandler.BadRequestIffNoMatch | src/index.js:104-108 | 400 exactly when retrieval succeeded and no row scored above -1; then the body is the fixed message and the API is not called |
| QueryHandler.EmptyCorpusIsBadRequest | src/index.js:104-108 | with no context rows a request gets 400 with the fixed message and no API call |
| QueryHandler.MatchCallsGatewayOnce | src/index.js:110-118 | when row i is the first maximum above -1, the API is called once with context = row i and question = the user's query, and the response is its data with 200 or the fixed 500 |
| QueryHandler.GatewayCalledIffMatch | src/index.js:104-117 | the API is called if and only if retrieval succeeded and some row scored above -1 |
| QueryHandler.OkIffGatewayAnswered | src/index.js:114-118 | 200 exactly when the API was called and answered, with its data as the body unchanged |
| QueryHandler.ServerErrorIffFailure | src/index.js:99-121 | 500 with the fixed message exactly when retrieval threw or the API call failed |
| QueryHandler.CapitalOfFranceExample | src/index.js:97-123 | two rows with the query closest to the first: the API gets the first row and the query, and its answer comes back with 200 |
| QueryHandler.GatewayFailureExample | src/index.js:119-121 | the same request with a failing API call gets 500 with the fixed message |

## Left out

- Cosine similarity (`cosineSimilarity`, tensor dot product, norms, division): floating-point tensor arithmetic in a library; scores are inputs. JavaScript doubles are modelled as exact reals plus NaN; infinities and rounding are not modelled.
- Loading the sentence encoder and embedding the corpus at start-up (`load()` and `model.embed(contextRows)` in `loadModelAndEmbedContext`): opaque, asynchronous library calls. The server starts listening while they are still running. Their promise has no rejection handler, so a failure there is an unhandled rejection that ends the process; requests that arrived before it were answered (a `/query` with 500, as in the race below). That start-up failure is not modelled.
- Embedding the user's query inside a request: an opaque library call. Its failure, or a throw inside the scoring loop, is the `Threw` outcome of retrieval (500); its success is a similarity per row index.
- The module-level variables `model` and `contextEmbeddings` and the race of a request arriving before they are set: asynchronous start-up ordering. A request arriving before `model` is set throws when embedding its query and is the `Threw` case (500). One arriving after `model` is set but before `contextEmbeddings` is throws inside the loop (`Threw`, 500) when there are context rows; with no context rows the loop never runs, which is the `Embedded` outcome with no rows and gets 400 (`QueryHandler.EmptyCorpusIsBadRequest`).
- The HTTP call itself (axios, URL, headers, API key): network I/O. The API is a pure function of the request body, called at most once per request.
- A missing `userString` field in the request body: the query is modelled as a string; an undefined query would reach the encoder and, if it throws there, is the `Threw` case.
- Express routing, CORS, JSON body parsing, configuration loading, `app.listen`, the `GET /` liveness route and console logging: framework plumbing with no decisions.
- The contents of the context rows (`constants.js` is not part of this model): they are an arbitrary sequence of strings.
