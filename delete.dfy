/** api/delete.js: POST /api/delete with a JSON body `{ token, id }`
    deletes a mail.tm account. The upstream answer and the JSON parser are
    inputs. */
module Delete {
  import opened Wrappers
  import opened JsValue
  import Http

  /** The parts of the request the handler reads; a `body` of JNull stands
      for a request without a parsed body (null or undefined). */
  datatype Request = Request(httpMethod: string, body: Json)

  datatype DeleteBody =
    | MethodNotAllowed
    | MissingTokenOrId
      /** `{ ok: true }` */
    | Deleted
      /** `{ ok: false, body }`, the upstream body or null. */
    | NotDeleted(body: Json)
      /** The message of the error `fetch` threw. */
    | ServerError(detail: string)

  /** What the client gets: a reply, or the TypeError that destructuring a
      null body throws outside the handler's try block. */
  datatype Response = Answer(status: int, body: DeleteBody) | Uncaught

  /** The one upstream request: DELETE /accounts/{id} with `Bearer {token}`. */
  datatype AccountDelete = AccountDelete(id: string, token: string)

  datatype Run = Run(response: Response, call: Option<AccountDelete>)

  /** `r.json().catch(() => null)`. */
  function BodyOrNull(text: string, parse: string -> Option<Json>): (b: Json)
    ensures parse(text).Some? ==> b == parse(text).value
    ensures parse(text).None? ==> b == JNull
  {
    parse(text).GetOr(JNull)
  }

  /** `handler(req, res)`. */
  function Handle(req: Request, upstream: Http.Outcome, parse: string -> Option<Json>): (r: Run)
    ensures req.httpMethod != "POST" ==> r == Run(Answer(405, MethodNotAllowed), None)
    ensures r.response.Uncaught? <==> req.httpMethod == "POST" && req.body == JNull
    ensures r.call.Some? ==>
      && Get(req.body, "id").Some? && r.call.value.id == ToText(Get(req.body, "id").value)
      && Get(req.body, "token").Some? && r.call.value.token == ToText(Get(req.body, "token").value)
  {
    if req.httpMethod != "POST" then Run(Answer(405, MethodNotAllowed), None)
    else if req.body == JNull then Run(Uncaught, None)
    else
      var token := Get(req.body, "token");
      var id := Get(req.body, "id");
      if token.None? || !Truthy(token.value) || id.None? || !Truthy(id.value) then
        Run(Answer(400, MissingTokenOrId), None)
      else
        var call := Some(AccountDelete(ToText(id.value), ToText(token.value)));
        match upstream
        case NetFailed(e) => Run(Answer(500, ServerError(e)), call)
        case Reached(status, text) =>
          if status == 204 then Run(Answer(200, Deleted), call)
          else Run(Answer(if Http.IsOk(status) then 200 else status, NotDeleted(BodyOrNull(text, parse))), call)
  }

  /** `token` and `id` both present and truthy in the body. */
  predicate HasParams(body: Json) {
    && Get(body, "token").Some? && Truthy(Get(body, "token").value)
    && Get(body, "id").Some? && Truthy(Get(body, "id").value)
  }

  /** The DELETE is sent exactly when the method is POST and the body
      carries a truthy token and id; a POST without them gets 400. */
  lemma DeletesOnlyWithParams(req: Request, upstream: Http.Outcome, parse: string -> Option<Json>)
    ensures Handle(req, upstream, parse).call.Some? <==> req.httpMethod == "POST" && HasParams(req.body)
    ensures req.httpMethod == "POST" && req.body != JNull && !HasParams(req.body) ==>
      Handle(req, upstream, parse).response == Answer(400, MissingTokenOrId)
  {
  }

  /** Once the DELETE is sent: `ok: true` only for 204; every other 2xx is
      200 with `ok: false`; a non-2xx status is passed through unchanged
      with the parsed body or null; a transport failure is 500. */
  lemma UpstreamMapping(req: Request, upstream: Http.Outcome, parse: string -> Option<Json>)
    requires req.httpMethod == "POST" && HasParams(req.body)
    ensures var resp := Handle(req, upstream, parse).response;
      && resp.Answer?
      && (resp.body == Deleted <==> upstream.Reached? && upstream.status == 204)
      && (resp.status == 200 <==> upstream.Reached? && Http.IsOk(upstream.status))
      && (upstream.Reached? && upstream.status != 204 ==>
            resp.body == NotDeleted(BodyOrNull(upstream.text, parse))
            && (!Http.IsOk(upstream.status) ==> resp.status == upstream.status)
            && (parse(upstream.text).None? ==> resp.body.body == JNull))
      && (upstream.NetFailed? ==> resp == Answer(500, ServerError(upstream.error)))
      && (resp.status == 500 <==> upstream.NetFailed? || upstream.status == 500)
  {
  }
}
