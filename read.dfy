/** api/read.js: GET /api/read?id=…&token=… fetches one mail.tm message
    with a bearer token taken from the query or, failing that, from the
    `x-mail-tm-token` header. The upstream answer and the JSON parser are
    inputs. */
module Read {
  import opened Wrappers
  import opened JsValue
  import Http

  const TokenHeader: string := "x-mail-tm-token"

  /** The parts of the request the handler reads. Query values and headers
      are single strings; an absent key is JavaScript's undefined. */
  datatype Request = Request(httpMethod: string, query: map<string, string>, headers: map<string, string>)

  datatype ReadBody =
    | MethodNotAllowed
    | MissingParams
      /** The upstream status, and its body text unless that is empty. */
    | ProviderError(status: int, body: Option<string>)
    | Message(message: Json)
      /** The text of a transport failure; none when the body did not parse
          (the SyntaxError's wording is not modelled). */
    | ReadException(cause: Option<string>)

  datatype Reply = Reply(status: int, body: ReadBody)

  /** The one upstream request: GET /messages/{id} with `Bearer {token}`. */
  datatype MessageFetch = MessageFetch(id: string, token: string)

  /** A run of the handler: its reply and the upstream request it made, if any. */
  datatype Run = Run(reply: Reply, fetch: Option<MessageFetch>)

  /** `req.query.token || req.headers["x-mail-tm-token"]`. */
  function TokenOf(req: Request): (t: Option<string>)
    ensures TruthyText(Lookup(req.query, "token")) ==> t == Lookup(req.query, "token")
    ensures !TruthyText(Lookup(req.query, "token")) ==> t == Lookup(req.headers, TokenHeader)
  {
    var q := Lookup(req.query, "token");
    if !TruthyText(q) then Lookup(req.headers, TokenHeader) else q
  }

  /** `handler(req, res)`. */
  function Handle(req: Request, upstream: Http.Outcome, parse: string -> Option<Json>): (r: Run)
    ensures req.httpMethod != "GET" ==> r == Run(Reply(405, MethodNotAllowed), None)
    ensures r.fetch.Some? ==> Lookup(req.query, "id") == Some(r.fetch.value.id) && Some(r.fetch.value.token) == TokenOf(req)
    ensures r.reply.status == 200 <==> r.fetch.Some? && upstream.Reached? && Http.IsOk(upstream.status) && parse(upstream.text).Some?
  {
    if req.httpMethod != "GET" then Run(Reply(405, MethodNotAllowed), None)
    else
      var id := Lookup(req.query, "id");
      var token := TokenOf(req);
      if !TruthyText(id) || !TruthyText(token) then Run(Reply(400, MissingParams), None)
      else
        var call := Some(MessageFetch(id.value, token.value));
        match upstream
        case NetFailed(e) => Run(Reply(500, ReadException(Some(e))), call)
        case Reached(status, text) =>
          if !Http.IsOk(status) then
            Run(Reply(502, ProviderError(status, if text == "" then None else Some(text))), call)
          else match parse(text)
            case Some(json) => Run(Reply(200, Message(json)), call)
            case None => Run(Reply(500, ReadException(None)), call)
  }

  /** The provider is asked exactly when the method is GET and both the id
      and a token (from the query or the header) are present and non-empty. */
  lemma FetchesOnlyWithParams(req: Request, upstream: Http.Outcome, parse: string -> Option<Json>)
    ensures Handle(req, upstream, parse).fetch.Some? <==>
      req.httpMethod == "GET" && TruthyText(Lookup(req.query, "id")) && TruthyText(TokenOf(req))
    ensures req.httpMethod == "GET" && (!TruthyText(Lookup(req.query, "id")) || !TruthyText(TokenOf(req))) ==>
      Handle(req, upstream, parse).reply == Reply(400, MissingParams)
  {
  }

  /** The header is consulted only when the query carries no usable token,
      and a usable query token wins over any header. */
  lemma QueryTokenWins(req: Request, token: string, header: string)
    requires "token" in req.query && req.query["token"] == token && token != ""
    ensures TokenOf(req) == Some(token)
    ensures TokenOf(req.(headers := req.headers[TokenHeader := header])) == Some(token)
  {
  }

  /** With a GET carrying both parameters, the upstream answer decides: a
      non-2xx status is reported as 502 with that status, a 2xx body that
      parses is returned as the message, anything else is a 500. */
  lemma UpstreamMapping(req: Request, upstream: Http.Outcome, parse: string -> Option<Json>)
    requires req.httpMethod == "GET" && TruthyText(Lookup(req.query, "id")) && TruthyText(TokenOf(req))
    ensures var reply := Handle(req, upstream, parse).reply;
      && (upstream.Reached? && !Http.IsOk(upstream.status) ==>
            reply.status == 502 && reply.body.ProviderError? && reply.body.status == upstream.status
            && (reply.body.body.None? <==> upstream.text == "")
            && (upstream.text != "" ==> reply.body.body == Some(upstream.text)))
      && (upstream.Reached? && Http.IsOk(upstream.status) && parse(upstream.text).Some? ==>
            reply == Reply(200, Message(parse(upstream.text).value)))
      && (reply.status == 500 <==> reply.body.ReadException?)
      && (reply.status == 500 <==>
            upstream.NetFailed? || (Http.IsOk(upstream.status) && parse(upstream.text).None?))
  {
  }
}
