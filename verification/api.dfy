/** The ledger routes as the server exposes them: every route is mounted
    behind the token gate, so a request reaches its handler only with a
    verified identity, and a rejected request changes nothing. */
module Api {

  import opened Common
  import opened ExpenseModel
  import opened Expenses
  import opened Auth

  /** The three ledger requests. */
  datatype Request =
    | PostExpense(body: Body)
    | GetExpenses(query: QueryParams)
    | DeleteExpense(id: RecordId)

  /** What a response carries: nothing, the created record, or a listing. */
  datatype Payload = NoPayload | OneRecord(record: Expense) | Records(records: seq<Expense>)

  datatype Response = Response(status: int, payload: Payload)

  /** The store after a request, and the response sent. */
  datatype Served = Served(store: Store, response: Response)

  /** The route handlers, run with the identity the gate bound: 201 with the
      new record, 200 with the listing, 204 with nothing whether or not a
      record was removed. Only the caller's own records can be added or
      removed; a GET changes nothing. */
  function Handle(s: Store, caller: UserId, req: Request): (out: Served)
    ensures req.PostExpense? ==>
      && out.response.status == 201
      && out.response.payload.OneRecord?
      && out.response.payload.record.userId == caller
      && out.store.records == s.records + [out.response.payload.record]
      && Created(out.store, out.response.payload.record) == Create(s, caller, req.body)
    ensures req.GetExpenses? ==>
      && out.store == s
      && out.response == Response(200, Records(Query(s, caller, req.query)))
    ensures req.DeleteExpense? ==>
      && out.store == Delete(s, caller, req.id)
      && out.response == Response(204, NoPayload)
    ensures Valid(s) ==> Valid(out.store)
    ensures forall e :: e in s.records && e.userId != caller ==> e in out.store.records
    ensures forall e :: e in out.store.records && e !in s.records ==> e.userId == caller
  {
    match req
    case PostExpense(body) =>
      var c := Create(s, caller, body);
      Served(c.store, Response(201, OneRecord(c.record)))
    case GetExpenses(q) =>
      Served(s, Response(200, Records(Query(s, caller, q))))
    case DeleteExpense(id) =>
      Served(Delete(s, caller, id), Response(204, NoPayload))
  }

  /** One request through the gate and, if it passes, the handler. */
  function Serve(s: Store, authorization: Option<string>,
                 verify: string -> Result<UserId, VerifyError>, req: Request): (out: Served)
    ensures out.response.status == 401 <==> ExtractToken(authorization).None?
    ensures out.response.status == 403 <==>
      ExtractToken(authorization).Some? && verify(ExtractToken(authorization).value).Err?
    ensures out.response.status == 401 || out.response.status == 403 ==>
      out.store == s && out.response.payload == NoPayload
    ensures Gate(authorization, verify).Proceed? ==>
      out == Handle(s, Gate(authorization, verify).userId, req)
    ensures Valid(s) ==> Valid(out.store)
  {
    match Gate(authorization, verify)
    case MissingToken => Served(s, Response(401, NoPayload))
    case VerificationFailed => Served(s, Response(403, NoPayload))
    case Proceed(caller) => Handle(s, caller, req)
  }

  /** Whatever the verification error, the response is the same bare 403 and
      the store is untouched, for every request. */
  lemma VerificationErrorsGetSameResponse(s: Store, authorization: Option<string>,
                                          v1: string -> Result<UserId, VerifyError>,
                                          v2: string -> Result<UserId, VerifyError>, req: Request)
    requires ExtractToken(authorization).Some?
    requires v1(ExtractToken(authorization).value).Err?
    requires v2(ExtractToken(authorization).value).Err?
    ensures Serve(s, authorization, v1, req) == Serve(s, authorization, v2, req)
                                            == Served(s, Response(403, NoPayload))
  {
  }

  /** A request that does not run as `b` leaves `b`'s view of the ledger,
      under every filter, exactly as it was. */
  lemma {:induction false} OthersLedgerUnchanged(s: Store, a: UserId, b: UserId, req: Request, q: QueryParams)
    requires a != b
    ensures Query(Handle(s, a, req).store, b, q) == Query(s, b, q)
  {
    match req
    case PostExpense(body) =>
      CreateIsInvisibleToOthers(s, a, b, body, q);
    case GetExpenses(_) =>
    case DeleteExpense(id) =>
      DeleteIsInvisibleToOthers(s, a, b, id, q);
  }

  /** A caller's request: the header it sent, what it asked for, and the
      verifier as it stood when the request arrived (token expiry depends on
      the clock, so the same token can pass one request and fail a later one). */
  datatype Call = Call(authorization: Option<string>,
                       verify: string -> Result<UserId, VerifyError>,
                       request: Request)

  /** The store after serving `calls` one after another. */
  function Run(s: Store, calls: seq<Call>): Store
    decreases |calls|
  {
    if |calls| == 0 then s
    else Run(Serve(s, calls[0].authorization, calls[0].verify, calls[0].request).store, calls[1..])
  }

  /** Ownership isolation over any history: as long as no request
      authenticates as `b`, what `b` can see is untouched, whoever else
      creates or deletes what. */
  lemma {:induction false} LedgerIsolation(s: Store, calls: seq<Call>, b: UserId, q: QueryParams)
    requires forall k :: 0 <= k < |calls| ==> Gate(calls[k].authorization, calls[k].verify) != Proceed(b)
    ensures Query(Run(s, calls), b, q) == Query(s, b, q)
    decreases |calls|
  {
    if |calls| > 0 {
      var c := calls[0];
      var s1 := Serve(s, c.authorization, c.verify, c.request).store;
      var o := Gate(c.authorization, c.verify);
      if o.Proceed? {
        OthersLedgerUnchanged(s, o.userId, b, c.request, q);
      }
      LedgerIsolation(s1, calls[1..], b, q);
    }
  }

  /** Validity of the store is kept over any history. */
  lemma {:induction false} RunKeepsValid(s: Store, calls: seq<Call>)
    requires Valid(s)
    ensures Valid(Run(s, calls))
    decreases |calls|
  {
    if |calls| > 0 {
      RunKeepsValid(Serve(s, calls[0].authorization, calls[0].verify, calls[0].request).store, calls[1..]);
    }
  }

  /** Starting from the empty collection, every history leaves ids unique
      and fresh. */
  lemma HistoryFromEmptyIsValid(calls: seq<Call>)
    ensures Valid(Run(EmptyStore, calls))
  {
    RunKeepsValid(EmptyStore, calls);
  }
}
