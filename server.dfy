/** server.js: what becomes of the list middleware's result. An error passed to
    `next(err)` reaches the error handler (`app.use(errorHandler)`); a rejected
    promise that nothing passes on becomes an unhandled rejection, on which the
    `unhandledRejection` listener closes the server. */
module Server {
  import opened Wrappers
  import opened ErrorResponses
  import opened Http
  import opened AdvancedResults
  import NumberParsing
  import ErrorHandler

  datatype Status = Serving | Closed

  /** The answer to the request, and whether the server still accepts requests. */
  datatype Delivery = Delivery(reply: Reply, status: Status)

  /** middleware/advancedResults.js as written: a bare `async` function, not wrapped
      in `asyncHandler`. Express 4 ignores the promise it returns, so the store's
      refusal of a negative skip is never passed to `next`: the request stays
      unanswered and the server closes. */
  method ListAsWritten<D>(
      query: Query, populate: Option<string>, stringify: Query -> string,
      find: Selection -> seq<D>, totalDocs: nat)
    returns (d: Delivery)
    ensures StartIndex(PageOf(query), LimitOf(query)) >= 0 ==> d == Delivery(PassOn, Serving)
    ensures StartIndex(PageOf(query), LimitOf(query)) < 0 ==> d == Delivery(Unanswered, Closed)
  {
    var r := AdvancedResults.AdvancedResults(query, populate, stringify, find, totalDocs);
    if r.Failure? {
      return Delivery(Unanswered, Closed);
    }
    d := Delivery(PassOn, Serving);
  }

  /** The middleware wrapped in `asyncHandler` as the controllers are: the refusal
      reaches the error handler, which answers 500 with the store's message, and the
      server keeps running. */
  method List<D>(
      query: Query, populate: Option<string>, stringify: Query -> string,
      find: Selection -> seq<D>, totalDocs: nat)
    returns (d: Delivery)
    ensures StartIndex(PageOf(query), LimitOf(query)) >= 0 ==> d == Delivery(PassOn, Serving)
    ensures StartIndex(PageOf(query), LimitOf(query)) < 0 ==>
      d == Delivery(Respond(500, ErrorHandler.ErrorBody(NegativeSkip.message), []), Serving)
    ensures d.status == Serving
  {
    var r := AdvancedResults.AdvancedResults(query, populate, stringify, find, totalDocs);
    if r.Failure? {
      ErrorHandler.OtherErrorsKeepStatus(r.error);
      return Delivery(ErrorHandler.HandleError(r.error), Serving);
    }
    d := Delivery(PassOn, Serving);
  }

  /** `?page=-1` (with no limit) asks for the skip -40: as written it stops the
      server, while the wrapped middleware answers it with a 500. */
  lemma {:induction false} NegativePageStopsServer(query: Query)
    requires "page" in query && query["page"] == "-1" && "limit" !in query
    ensures PageOf(query) == -1 && LimitOf(query) == 20
    ensures StartIndex(PageOf(query), LimitOf(query)) == -40
  {
    NumberParsing.ExampleTexts('1');
    NumberParsing.ParseIntSigned("1", "");
  }
}
