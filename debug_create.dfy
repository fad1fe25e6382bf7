/** api/debug-create.js: a GET endpoint that reads the mail.tm domain
    catalog, then tries up to four times to create an account at a random
    address and obtain its token, reporting every failure in detail.
    Provider answers and random draws are inputs: the catalog answer, one
    account-creation answer and one token answer per attempt, the twelve
    name draws and the (opaque) password of each attempt. */
module DebugCreate {
  import opened Wrappers
  import opened JsValue
  import Http
  import Names

  const Attempts: nat := 4
  const LocalLength: nat := 12
  const FallbackDomain: string := "mail.tm"

  // ---------------------------------------------------------------------
  // safeFetch

  /** The record `safeFetch` resolves to. */
  datatype Fetched =
    | Answered(ok: bool, status: int, body: Json, raw: string)
    | FetchFailed(fetchError: string)
  {
    /** `resp.ok`, which is undefined (falsy) after a transport failure. */
    predicate Succeeded() {
      Answered? && ok
    }
  }

  /** `safeFetch(url, opts)`: never throws. A transport failure becomes a
      record with `ok` false and the error text; otherwise the status and
      raw text are kept, and the body is null for empty text, the parsed
      value when the text parses, and the text itself when it does not. */
  function SafeFetch(outcome: Http.Outcome, parse: string -> Option<Json>): (f: Fetched)
    ensures f.FetchFailed? <==> outcome.NetFailed?
  {
    match outcome
    case NetFailed(e) => FetchFailed(e)
    case Reached(status, text) =>
      var body :=
        if text == "" then JNull
        else match parse(text)
          case Some(v) => v
          case None => JStr(text);
      Answered(Http.IsOk(status), status, body, text)
  }

  /** The record's shape: `ok` and `fetchError` after a transport failure;
      status, `ok`, raw text and the three readings of the body otherwise. */
  lemma SafeFetchShape(outcome: Http.Outcome, parse: string -> Option<Json>)
    ensures var f := SafeFetch(outcome, parse);
      && (outcome.NetFailed? ==> !f.Succeeded() && f.fetchError == outcome.error)
      && (outcome.Reached? ==>
        && f.ok == Http.IsOk(outcome.status) && f.status == outcome.status && f.raw == outcome.text
        && (outcome.text == "" ==> f.body == JNull)
        && (outcome.text != "" && parse(outcome.text).Some? ==> f.body == parse(outcome.text).value)
        && (outcome.text != "" && parse(outcome.text).None? ==> f.body == JStr(outcome.text)))
  {
  }

  // ---------------------------------------------------------------------
  // The domain catalog

  /** The domain list, or the TypeError that reading `m.domain` of a null
      member throws (caught by the handler's outer try). */
  datatype DomainList = Domains(list: seq<Json>) | NullMember

  /** `d.body.hydra.member` when `d.ok && d.body && d.body.hydra &&
      Array.isArray(d.body.hydra.member)`. */
  function MemberArray(d: Fetched): Option<seq<Json>> {
    if !d.Succeeded() || !Truthy(d.body) then None
    else match Get(d.body, "hydra")
      case None => None
      case Some(h) =>
        if !Truthy(h) then None
        else match Get(h, "member")
          case Some(JArr(ms)) => Some(ms)
          case _ => None
  }

  /** `members.map(m => m.domain).filter(Boolean)`: the truthy `domain`
      fields in member order, unless some member is null. */
  function TruthyDomains(members: seq<Json>): (r: DomainList)
    ensures r.NullMember? <==> JNull in members
    ensures r.Domains? ==> |r.list| <= |members|
    ensures r.Domains? ==> forall v :: v in r.list <==>
      Truthy(v) && exists m :: m in members && Get(m, "domain") == Some(v)
  {
    if members == [] then Domains([])
    else if members[0] == JNull then NullMember
    else
      match TruthyDomains(members[1..])
      case NullMember => NullMember
      case Domains(rest) =>
        match Get(members[0], "domain")
        case Some(v) =>
          if Truthy(v) then Domains([v] + rest) else Domains(rest)
        case None => Domains(rest)
  }

  /** What one member contributes to the list: its `domain` field when
      that is truthy, nothing otherwise. */
  function DomainField(m: Json): seq<Json> {
    match Get(m, "domain")
    case Some(v) => if Truthy(v) then [v] else []
    case None => []
  }

  /** The members' contributions, concatenated in member order. */
  function DomainFields(members: seq<Json>): seq<Json> {
    if members == [] then [] else DomainField(members[0]) + DomainFields(members[1..])
  }

  /** Contributions of two arrays in a row are the first's followed by the second's. */
  lemma {:induction false} DomainFieldsAppend(a: seq<Json>, b: seq<Json>)
    ensures DomainFields(a + b) == DomainFields(a) + DomainFields(b)
  {
    if a == [] {
      assert a + b == b;
    } else {
      assert (a + b)[0] == a[0] && (a + b)[1..] == a[1..] + b;
      DomainFieldsAppend(a[1..], b);
    }
  }

  /** For a null-free member array the list is each member's contribution,
      in member order. */
  lemma {:induction false} TruthyDomainsInOrder(members: seq<Json>)
    requires JNull !in members
    ensures TruthyDomains(members) == Domains(DomainFields(members))
  {
    if members != [] {
      assert JNull !in members[1..];
      TruthyDomainsInOrder(members[1..]);
    }
  }

  /** The map and the filter keep member order: the list for two null-free
      member arrays placed one after the other is the first array's list
      followed by the second's. */
  lemma TruthyDomainsAppend(a: seq<Json>, b: seq<Json>)
    requires JNull !in a && JNull !in b
    ensures TruthyDomains(a + b).Domains?
    ensures TruthyDomains(a + b).list == TruthyDomains(a).list + TruthyDomains(b).list
  {
    TruthyDomainsInOrder(a + b);
    TruthyDomainsInOrder(a);
    TruthyDomainsInOrder(b);
    DomainFieldsAppend(a, b);
  }

  /** One non-null member contributes its `domain` field when that is
      truthy, and nothing otherwise. */
  lemma TruthyDomainsOne(m: Json)
    requires m != JNull
    ensures TruthyDomains([m]).Domains?
    ensures Get(m, "domain").Some? && Truthy(Get(m, "domain").value) ==>
      TruthyDomains([m]).list == [Get(m, "domain").value]
    ensures Get(m, "domain").None? || !Truthy(Get(m, "domain").value) ==>
      TruthyDomains([m]).list == []
  {
    assert [m][1..] == [];
  }

  /** The domains the attempts cycle through: the catalog's truthy domain
      fields when the answer has the expected shape, `["mail.tm"]` otherwise. */
  function Catalog(d: Fetched): (r: DomainList)
    ensures MemberArray(d).None? ==> r == Domains([JStr(FallbackDomain)])
    ensures MemberArray(d).Some? ==> r == TruthyDomains(MemberArray(d).value)
    ensures r.Domains? ==> forall i :: 0 <= i < |r.list| ==> Truthy(r.list[i])
  {
    match MemberArray(d)
    case None => Domains([JStr(FallbackDomain)])
    case Some(ms) => TruthyDomains(ms)
  }

  /** `domains[i % domains.length] || "mail.tm"`: the entry the attempt
      index selects, or "mail.tm" when the list is empty (the index is then
      NaN) or the entry is falsy. */
  function DomainFor(domains: seq<Json>, i: nat): (d: Json)
    ensures Truthy(d)
    ensures |domains| == 0 ==> d == JStr(FallbackDomain)
    ensures |domains| > 0 && Truthy(domains[i % |domains|]) ==> d == domains[i % |domains|]
    ensures |domains| > 0 && !Truthy(domains[i % |domains|]) ==> d == JStr(FallbackDomain)
  {
    if |domains| == 0 then JStr(FallbackDomain)
    else if Truthy(domains[i % |domains|]) then domains[i % |domains|]
    else JStr(FallbackDomain)
  }

  // ---------------------------------------------------------------------
  // Replies, requests and inputs

  datatype Step = CreateStep | TokenStep

  /** `lastError`: the step and attempt that failed, the status (absent after
      a transport failure), `resp.body || resp.raw`, and `resp.fetchError || null`. */
  datatype ErrorDetail = ErrorDetail(step: Step, attempt: nat, status: Option<int>, body: Option<Json>, fetchError: Option<string>)

  function Detail(step: Step, attempt: nat, f: Fetched): (e: ErrorDetail)
    ensures e.step == step && e.attempt == attempt
    ensures e.status.None? <==> f.FetchFailed?
    ensures f.Answered? ==> e.status == Some(f.status)
    ensures f.Answered? && Truthy(f.body) ==> e.body == Some(f.body)
    ensures f.Answered? && !Truthy(f.body) ==> e.body == Some(JStr(f.raw))
    ensures f.FetchFailed? ==> e.body.None?
    ensures e.fetchError.Some? <==> f.FetchFailed? && f.fetchError != ""
    ensures e.fetchError.Some? ==> e.fetchError.value == f.fetchError
  {
    match f
    case Answered(_, status, body, raw) =>
      ErrorDetail(step, attempt, Some(status), Some(if Truthy(body) then body else JStr(raw)), None)
    case FetchFailed(e) =>
      ErrorDetail(step, attempt, None, None, if e == "" then None else Some(e))
  }

  datatype ReplyBody =
    | OnlyGetAllowed
    | Unexpected
    | CreateFailedImmediate(detail: ErrorDetail)
    | TokenFailed(detail: ErrorDetail)
    | AllAttemptsFailed(lastError: Option<ErrorDetail>)
    | Created(address: string, password: string, token: Json, id: Json)

  datatype Reply = Reply(status: int, body: ReplyBody)

  /** The requests made to the provider, in order. */
  datatype Call =
    | GetDomains
    | CreateAccount(address: string, password: string)
    | RequestToken(address: string, password: string)

  /** The provider's answers: to the catalog request, and per attempt to
      the account creation and to the token request. */
  datatype Provider = Provider(
    catalog: Http.Outcome,
    creates: seq<Http.Outcome>,
    tokens: seq<Http.Outcome>,
    parse: string -> Option<Json>)

  /** Per attempt: the twelve draws of the local part and the password. */
  datatype Randomness = Randomness(locals: seq<seq<nat>>, passwords: seq<string>)

  /** Every attempt has its answers. */
  predicate Answers(p: Provider) {
    |p.creates| >= Attempts && |p.tokens| >= Attempts
  }

  /** Every attempt has its draws. */
  predicate Draws(rnd: Randomness) {
    && |rnd.locals| >= Attempts && |rnd.passwords| >= Attempts
    && forall i :: 0 <= i < |rnd.locals| ==> |rnd.locals[i]| >= LocalLength && Names.ValidDraws(rnd.locals[i])
  }

  /** A failed creation that the loop retries: status 400, 409 or 422. */
  predicate Retryable(f: Fetched) {
    f.Answered? && !f.ok && (f.status == 400 || f.status == 409 || f.status == 422)
  }

  function CreateResult(p: Provider, i: nat): Fetched
    requires i < |p.creates|
  {
    SafeFetch(p.creates[i], p.parse)
  }

  function TokenResult(p: Provider, i: nat): Fetched
    requires i < |p.tokens|
  {
    SafeFetch(p.tokens[i], p.parse)
  }

  /** The local part attempt i generates (`randLocal(12)`). */
  function LocalAt(rnd: Randomness, i: nat): string
    requires i < Attempts && Draws(rnd)
  {
    Names.Spell(rnd.locals[i][..LocalLength])
  }

  /** The address attempt i uses. */
  function AddressAt(domains: seq<Json>, rnd: Randomness, i: nat): string
    requires i < Attempts && Draws(rnd)
  {
    Names.Address(LocalAt(rnd, i), ToText(DomainFor(domains, i)))
  }

  /** The account-creation requests of the first n attempts. */
  function CreateCalls(domains: seq<Json>, rnd: Randomness, n: nat): seq<Call>
    requires n <= Attempts && Draws(rnd)
  {
    if n == 0 then []
    else CreateCalls(domains, rnd, n - 1) + [CreateAccount(AddressAt(domains, rnd, n - 1), rnd.passwords[n - 1])]
  }

  /** The first attempt from i on whose creation is not retried, or
      `Attempts` when every remaining one is. */
  function FirstDecisive(p: Provider, i: nat): (k: nat)
    requires Answers(p) && i <= Attempts
    ensures i <= k <= Attempts
    ensures forall j :: i <= j < k ==> Retryable(CreateResult(p, j))
    ensures k < Attempts ==> !Retryable(CreateResult(p, k))
    decreases Attempts - i
  {
    if i == Attempts then Attempts
    else if Retryable(CreateResult(p, i)) then FirstDecisive(p, i + 1)
    else i
  }

  /** A run of the handler: its reply and the requests it made. */
  datatype Run = Run(reply: Reply, calls: seq<Call>)

  /** The reply and the requests of the attempt loop when attempt k decides
      it (k == Attempts: every attempt was retried). */
  function Decided(p: Provider, rnd: Randomness, ds: seq<Json>, k: nat): Run
    requires Answers(p) && Draws(rnd) && k <= Attempts
  {
    if k == Attempts then
      var last := Detail(CreateStep, k - 1, CreateResult(p, k - 1));
      Run(Reply(502, AllAttemptsFailed(Some(last))), CreateCalls(ds, rnd, k))
    else
      var created := CreateResult(p, k);
      var calls := CreateCalls(ds, rnd, k + 1);
      if !created.Succeeded() then
        Run(Reply(502, CreateFailedImmediate(Detail(CreateStep, k, created))), calls)
      else
        var address, password := AddressAt(ds, rnd, k), rnd.passwords[k];
        var token := TokenResult(p, k);
        var calls' := calls + [RequestToken(address, password)];
        if !token.Succeeded() then
          Run(Reply(502, TokenFailed(Detail(TokenStep, k, token))), calls')
        else
          Run(Reply(200, Created(address, password, TruthyOrNull(token.body, "token"), TruthyOrNull(token.body, "account"))), calls')
  }

  /** What the handler does for a GET, from the answers and draws: the
      catalog request, then the attempts up to the first one whose creation
      is not retried, which decides the outcome. */
  function Expected(p: Provider, rnd: Randomness): Run
    requires Answers(p) && Draws(rnd)
  {
    match Catalog(SafeFetch(p.catalog, p.parse))
    case NullMember => Run(Reply(500, Unexpected), [GetDomains])
    case Domains(ds) =>
      var loop := Decided(p, rnd, ds, FirstDecisive(p, 0));
      Run(loop.reply, [GetDomains] + loop.calls)
  }

  /** The first attempt that is not retried is the one FirstDecisive names. */
  lemma {:induction false} DecisiveAt(p: Provider, i: nat, k: nat)
    requires Answers(p) && i <= k <= Attempts
    requires forall j :: i <= j < k ==> Retryable(CreateResult(p, j))
    requires k < Attempts ==> !Retryable(CreateResult(p, k))
    ensures FirstDecisive(p, i) == k
    decreases k - i
  {
    if i < k {
      DecisiveAt(p, i + 1, k);
    }
  }

  // ---------------------------------------------------------------------
  // What a run guarantees

  /** The creation requests of the first n attempts are n CreateAccount
      calls, attempt j asking for attempt j's address and password. */
  lemma {:induction false} CreateCallsInOrder(ds: seq<Json>, rnd: Randomness, n: nat)
    requires n <= Attempts && Draws(rnd)
    ensures |CreateCalls(ds, rnd, n)| == n
    ensures forall j :: 0 <= j < n ==>
      CreateCalls(ds, rnd, n)[j] == CreateAccount(AddressAt(ds, rnd, j), rnd.passwords[j])
  {
    if n > 0 {
      CreateCallsInOrder(ds, rnd, n - 1);
    }
  }

  /** The attempt loop's requests: the creations of every attempt up to the
      deciding one, in order, then at most one token request, for the
      deciding attempt's credentials and only when its creation succeeded. */
  lemma LoopRequests(p: Provider, rnd: Randomness, ds: seq<Json>, k: nat)
    requires Answers(p) && Draws(rnd) && k <= Attempts
    ensures var calls := Decided(p, rnd, ds, k).calls;
      var n := if k == Attempts then k else k + 1;
      && n <= |calls| <= n + 1
      && (forall j :: 0 <= j < n ==> calls[j] == CreateAccount(AddressAt(ds, rnd, j), rnd.passwords[j]))
      && (|calls| == n + 1 ==>
            k < Attempts && CreateResult(p, k).Succeeded()
            && calls[n] == RequestToken(AddressAt(ds, rnd, k), rnd.passwords[k]))
  {
    var n := if k == Attempts then k else k + 1;
    CreateCallsInOrder(ds, rnd, n);
  }

  /** Putting the catalog request in front of the loop's requests shifts
      attempt j's creation request to position j+1. */
  lemma CreatesAfterCatalog(loop: seq<Call>, ds: seq<Json>, rnd: Randomness, n: nat)
    requires n <= Attempts && Draws(rnd) && n <= |loop| <= n + 1
    requires forall j :: 0 <= j < n ==> loop[j] == CreateAccount(AddressAt(ds, rnd, j), rnd.passwords[j])
    requires |loop| == n + 1 ==> loop[n].RequestToken?
    ensures var calls := [GetDomains] + loop;
      forall j :: 0 <= j < |calls| && calls[j].CreateAccount? ==>
        1 <= j <= Attempts && calls[j] == CreateAccount(AddressAt(ds, rnd, j - 1), rnd.passwords[j - 1])
  {
    var calls := [GetDomains] + loop;
    forall j | 0 <= j < |calls| && calls[j].CreateAccount?
      ensures 1 <= j <= Attempts && calls[j] == CreateAccount(AddressAt(ds, rnd, j - 1), rnd.passwords[j - 1])
    {
      assert j > 0 && calls[j] == loop[j - 1];
    }
  }

  /** Every run starts with the catalog request; the creation requests
      follow it in attempt order, request j+1 being attempt j's, so there
      are at most four of them. */
  lemma CreatesInAttemptOrder(p: Provider, rnd: Randomness, ds: seq<Json>)
    requires Answers(p) && Draws(rnd)
    requires Catalog(SafeFetch(p.catalog, p.parse)) == Domains(ds)
    ensures var calls := Expected(p, rnd).calls;
      && |calls| >= 1 && calls[0] == GetDomains
      && forall j :: 0 <= j < |calls| && calls[j].CreateAccount? ==>
           1 <= j <= Attempts && calls[j] == CreateAccount(AddressAt(ds, rnd, j - 1), rnd.passwords[j - 1])
  {
    var k := FirstDecisive(p, 0);
    var loop := Decided(p, rnd, ds, k);
    LoopRequests(p, rnd, ds, k);
    CreatesAfterCatalog(loop.calls, ds, rnd, if k == Attempts then k else k + 1);
    assert Expected(p, rnd).calls == [GetDomains] + loop.calls;
  }

  /** A token is requested at most once: as the very last call, for the
      address and password of the creation request just before it, and
      only after that creation succeeded. */
  lemma TokenRequestedLast(p: Provider, rnd: Randomness)
    requires Answers(p) && Draws(rnd)
    ensures var calls := Expected(p, rnd).calls;
      forall m :: 0 <= m < |calls| && calls[m].RequestToken? ==>
        && m == |calls| - 1 && 2 <= m <= Attempts + 1
        && calls[m - 1] == CreateAccount(calls[m].address, calls[m].password)
        && CreateResult(p, m - 2).Succeeded()
  {
    match Catalog(SafeFetch(p.catalog, p.parse))
    case NullMember =>
    case Domains(ds) =>
      LoopRequests(p, rnd, ds, FirstDecisive(p, 0));
  }

  /** When every creation is refused with 400, 409 or 422, all four are
      tried, no token is requested, and the reply is 502
      all_attempts_failed carrying the failure of attempt 3. */
  lemma AllRetryableExhausts(p: Provider, rnd: Randomness, ds: seq<Json>)
    requires Answers(p) && Draws(rnd)
    requires Catalog(SafeFetch(p.catalog, p.parse)) == Domains(ds)
    requires forall j :: 0 <= j < Attempts ==> Retryable(CreateResult(p, j))
    ensures Expected(p, rnd).reply ==
      Reply(502, AllAttemptsFailed(Some(Detail(CreateStep, 3, CreateResult(p, 3)))))
    ensures Expected(p, rnd).calls == [GetDomains] + CreateCalls(ds, rnd, Attempts)
  {
    DecisiveAt(p, 0, Attempts);
  }

  /** A creation failure outside {400, 409, 422}, including a transport
      failure, after retryable failures only, ends the run at once with
      502 create_failed_immediate and no token request. */
  lemma ImmediateFailureStops(p: Provider, rnd: Randomness, ds: seq<Json>, k: nat)
    requires Answers(p) && Draws(rnd)
    requires Catalog(SafeFetch(p.catalog, p.parse)) == Domains(ds)
    requires k < Attempts && forall j :: 0 <= j < k ==> Retryable(CreateResult(p, j))
    requires !CreateResult(p, k).Succeeded() && !Retryable(CreateResult(p, k))
    ensures Expected(p, rnd).reply == Reply(502, CreateFailedImmediate(Detail(CreateStep, k, CreateResult(p, k))))
    ensures Expected(p, rnd).calls == [GetDomains] + CreateCalls(ds, rnd, k + 1)
  {
    DecisiveAt(p, 0, k);
  }

  /** A token failure after a successful creation ends the run: no further
      attempt is made, whatever the remaining answers are. */
  lemma TokenFailureStops(p: Provider, rnd: Randomness, ds: seq<Json>, k: nat)
    requires Answers(p) && Draws(rnd)
    requires Catalog(SafeFetch(p.catalog, p.parse)) == Domains(ds)
    requires k < Attempts && forall j :: 0 <= j < k ==> Retryable(CreateResult(p, j))
    requires CreateResult(p, k).Succeeded() && !TokenResult(p, k).Succeeded()
    ensures Expected(p, rnd).reply == Reply(502, TokenFailed(Detail(TokenStep, k, TokenResult(p, k))))
    ensures Expected(p, rnd).calls ==
      [GetDomains] + CreateCalls(ds, rnd, k + 1) + [RequestToken(AddressAt(ds, rnd, k), rnd.passwords[k])]
  {
    DecisiveAt(p, 0, k);
  }

  /** Creations refused with 400, 409 or 422 on the first n attempts and
      accepted on attempt n, with the token granted, give 200 and the
      address of attempt n. */
  lemma SucceedsAfterRetries(p: Provider, rnd: Randomness, ds: seq<Json>, n: nat)
    requires Answers(p) && Draws(rnd)
    requires Catalog(SafeFetch(p.catalog, p.parse)) == Domains(ds)
    requires n < Attempts && forall j :: 0 <= j < n ==> Retryable(CreateResult(p, j))
    requires CreateResult(p, n).Succeeded() && TokenResult(p, n).Succeeded()
    ensures Expected(p, rnd).reply.status == 200
    ensures Expected(p, rnd).reply.body.Created?
    ensures Expected(p, rnd).reply.body.address == AddressAt(ds, rnd, n)
    ensures Expected(p, rnd).reply.body.password == rnd.passwords[n]
    ensures |Expected(p, rnd).calls| == n + 3
  {
    DecisiveAt(p, 0, n);
    CreateCallsInOrder(ds, rnd, n + 1);
  }

  /** A 200 reply names the address of the attempt that succeeded: twelve
      alphabet characters, '@', and the domain that attempt selected; the
      token and account id are null when the token body lacks them. */
  lemma SuccessfulAddress(p: Provider, rnd: Randomness)
    requires Answers(p) && Draws(rnd)
    requires Expected(p, rnd).reply.status == 200
    ensures var body := Expected(p, rnd).reply.body;
      && body.Created?
      && var k := FirstDecisive(p, 0);
      && k < Attempts
      && var ds := Catalog(SafeFetch(p.catalog, p.parse)).list;
      && var parts := Names.SplitAddress(body.address);
      && |parts.0| == LocalLength && Names.InAlphabet(parts.0)
      && parts.1 == ToText(DomainFor(ds, k))
      && body.password == rnd.passwords[k]
      && (Get(TokenResult(p, k).body, "token").None? ==> body.token == JNull)
      && (Get(TokenResult(p, k).body, "account").None? ==> body.id == JNull)
  {
    match Catalog(SafeFetch(p.catalog, p.parse))
    case NullMember =>
    case Domains(ds) =>
      var k := FirstDecisive(p, 0);
      Names.GeneratedNameSplits(LocalAt(rnd, k), ToText(DomainFor(ds, k)));
  }

  // ---------------------------------------------------------------------
  // The handler

  /** The address attempt i tries: a fresh `randLocal(12)` at the domain
      the attempt selects. */
  method AttemptAddress(domains: seq<Json>, rnd: Randomness, i: nat) returns (address: string)
    requires i < Attempts && Draws(rnd)
    ensures address == AddressAt(domains, rnd, i)
  {
    var domain := DomainFor(domains, i);
    var local := Names.RandomString(LocalLength, rnd.locals[i]);
    address := Names.Address(local, ToText(domain));
  }

  /** The attempt loop over the domain list: up to four attempts, each
      creating an account at a fresh address; 400, 409 and 422 move on to
      the next attempt, any other creation failure and any token failure
      end the loop, and a granted token is the success reply. */
  method AttemptLoop(p: Provider, rnd: Randomness, domains: seq<Json>) returns (reply: Reply, calls: seq<Call>)
    requires Answers(p) && Draws(rnd)
    ensures Run(reply, calls) == Decided(p, rnd, domains, FirstDecisive(p, 0))
  {
    calls := [];
    var lastError: Option<ErrorDetail> := None;
    for i := 0 to Attempts
      invariant calls == CreateCalls(domains, rnd, i)
      invariant FirstDecisive(p, i) == FirstDecisive(p, 0)
      invariant i > 0 ==> lastError == Some(Detail(CreateStep, i - 1, CreateResult(p, i - 1)))
    {
      var address := AttemptAddress(domains, rnd, i);
      var password := rnd.passwords[i];
      calls := calls + [CreateAccount(address, password)];
      var createResp := CreateResult(p, i);
      if !createResp.Succeeded() {
        lastError := Some(Detail(CreateStep, i, createResp));
        if Retryable(createResp) {
          continue;
        }
        return Reply(502, CreateFailedImmediate(lastError.value)), calls;
      }
      calls := calls + [RequestToken(address, password)];
      var tokenResp := TokenResult(p, i);
      if !tokenResp.Succeeded() {
        lastError := Some(Detail(TokenStep, i, tokenResp));
        return Reply(502, TokenFailed(lastError.value)), calls;
      }
      return Reply(200, Created(address, password, TruthyOrNull(tokenResp.body, "token"), TruthyOrNull(tokenResp.body, "account"))), calls;
    }
    return Reply(502, AllAttemptsFailed(lastError)), calls;
  }

  /** `handler(req, res)`: 405 for anything but GET, before any request;
      otherwise the catalog request and the attempt loop, which together
      make the run `Expected` describes. */
  method Handle(reqMethod: string, p: Provider, rnd: Randomness) returns (reply: Reply, calls: seq<Call>)
    requires Answers(p) && Draws(rnd)
    ensures reqMethod != "GET" ==> reply == Reply(405, OnlyGetAllowed) && calls == []
    ensures reqMethod == "GET" ==> Run(reply, calls) == Expected(p, rnd)
  {
    if reqMethod != "GET" {
      return Reply(405, OnlyGetAllowed), [];
    }
    var d := SafeFetch(p.catalog, p.parse);
    var catalog := Catalog(d);
    if catalog.NullMember? {
      return Reply(500, Unexpected), [GetDomains];
    }
    var attempts;
    reply, attempts := AttemptLoop(p, rnd, catalog.list);
    calls := [GetDomains] + attempts;
  }
}
