/** What a handler does with a request: answer it with a status and a JSON body
    (possibly setting cookies), answer it through the token response of
    utils/sendTokenResponse.js (which is not part of this model), pass an error to
    `next(err)`, call `next()`, or leave it unanswered. */
module Http {
  import opened Wrappers
  import opened Documents
  import opened ErrorResponses
  import AdvancedResults

  datatype Json =
    | JNull
    | JBool(b: bool)
    | JNum(n: int)
    | JStr(s: string)
    | JArr(items: seq<Json>)
    | JObj(members: seq<(string, Json)>)
    | JDoc(doc: Doc)

  datatype Cookie = Cookie(name: string, value: string, expires: int, httpOnly: bool)

  datatype Reply =
    | Respond(status: int, body: Json, cookies: seq<Cookie>)
    | TokenResponse(status: int, user: Id)
    | Forward(err: ErrorObject)
    | PassOn
    | Unanswered

  /** `res.status(status).json({ success: true, ...members })`. */
  function Succeed(status: int, members: seq<(string, Json)>): (r: Reply)
    ensures r.Respond? && r.status == status && r.cookies == []
    ensures r.body == JObj([("success", JBool(true))] + members)
  {
    Respond(status, JObj([("success", JBool(true))] + members), [])
  }

  /** `next(new ErrorResponse(message, status))`. */
  function Fail(message: string, status: int): (r: Reply)
    ensures r.Forward? && r.err.message == message && r.err.statusCode == Some(status)
  {
    Forward(Raise(message, status))
  }

  function LinkJson(link: AdvancedResults.PageLink): Json {
    JObj([("page", JNum(link.page)), ("limit", JNum(link.limit))])
  }

  /** The pagination object: `next` and then `prev`, each only when present. */
  function PaginationJson(p: AdvancedResults.Pagination): (j: Json)
    ensures j.JObj? && |j.members| <= 2
    ensures p.next.Some? <==> exists k :: 0 <= k < |j.members| && j.members[k].0 == "next"
    ensures p.prev.Some? <==> exists k :: 0 <= k < |j.members| && j.members[k].0 == "prev"
    ensures p.next.Some? ==> ("next", LinkJson(p.next.value)) in j.members
    ensures p.prev.Some? ==> ("prev", LinkJson(p.prev.value)) in j.members
    ensures p.next.Some? && p.prev.Some? ==> j.members[0].0 == "next" && j.members[1].0 == "prev"
  {
    var next := if p.next.Some? then [("next", LinkJson(p.next.value))] else [];
    var prev := if p.prev.Some? then [("prev", LinkJson(p.prev.value))] else [];
    var members := next + prev;
    assert p.next.Some? ==> members[0].0 == "next";
    assert p.prev.Some? ==> members[|members| - 1].0 == "prev";
    JObj(members)
  }

  /** `res.advancedResults` as JSON. */
  function EnvelopeJson(env: AdvancedResults.Envelope<Doc>): Json {
    JObj([
      ("success", JBool(env.success)),
      ("count", JNum(env.count)),
      ("pagination", PaginationJson(env.pagination)),
      ("data", JArr(seq(|env.data|, k requires 0 <= k < |env.data| => JDoc(env.data[k]))))])
  }
}
