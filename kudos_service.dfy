/**
 * The two request handlers of the backend, `handleCreateKudos` and
 * `handleListKudos`. Each validates its input with the shared schemas,
 * answers 400 with the failing fields when that fails, and otherwise calls
 * the injected repository once, answering 201 or 200 with what it returns
 * and 500 when it throws.
 *
 * The repository is injected as two functions whose result is either a value
 * or a thrown error. Each handler returns, besides its status and body, the
 * list of repository calls it made, so "the repository is not called" and
 * "the repository is called with exactly this input" are postconditions.
 */
module KudosService {
  import opened Wrappers
  import opened JsStrings
  import opened KudosTypes
  import opened KudosSchema
  import opened DbSchema
  import opened KudosRepository

  /** A settled repository promise: it resolved with a value or it rejected. */
  datatype Outcome<+T> = Returns(value: T) | Throws

  /** `KudosServiceDependencies`. */
  datatype Dependencies = Dependencies(
    createKudos: NewKudos -> Outcome<Kudos>,
    listKudos: ListKudosQuery -> Outcome<seq<Kudos>>)

  /** `CreateKudosInput`: the `x-user-id` header, if sent, and the parsed JSON body. */
  datatype CreateKudosInput = CreateKudosInput(senderIdHeader: Option<string>, body: RawBody)

  /** The bodies the handlers answer with. */
  datatype ResponseBody =
    | ValidationFailed(message: string, errors: Issues)
    | Failed(message: string)
    | CreatedBody(kudos: Kudos)
    | ListBody(response: ListKudosResponse)

  datatype ServiceResult = ServiceResult(status: int, body: ResponseBody)

  /** A handler's answer together with the repository calls it made, in order. */
  datatype Handled<C> = Handled(result: ServiceResult, calls: seq<C>)

  const InvalidHeaderMessage: string := "Invalid x-user-id header."
  const InvalidBodyMessage: string := "Invalid request body."
  const CreateFailedMessage: string := "Failed to create kudos."
  const InvalidQueryMessage: string := "Invalid query params."
  const FetchFailedMessage: string := "Failed to fetch kudos."

  /** The repository input built from a valid body and sender: the body's
      fields spread, plus `senderId`. */
  function RepositoryInput(body: CreateKudosBody, senderId: string): NewKudos {
    NewKudos(senderId, body.receiverId, body.message, body.category)
  }

  /** `handleCreateKudos`. The header is checked before the body; either
      failing answers 400 with that schema's issues and calls nothing. With
      both valid the repository is called exactly once, with the trimmed body
      and the sender; a returned kudos is answered with 201 and itself, a
      thrown error with 500. */
  function HandleCreateKudos(input: CreateKudosInput, deps: Dependencies): (out: Handled<NewKudos>)
    ensures var sender := ParseSenderIdHeader(input.senderIdHeader);
      sender.Err? ==> out == Handled(ServiceResult(400, ValidationFailed(InvalidHeaderMessage, sender.error)), [])
    ensures var sender, body := ParseSenderIdHeader(input.senderIdHeader), ParseCreateKudosBody(input.body);
      sender.Ok? && body.Err? ==> out == Handled(ServiceResult(400, ValidationFailed(InvalidBodyMessage, body.error)), [])
    ensures var sender, body := ParseSenderIdHeader(input.senderIdHeader), ParseCreateKudosBody(input.body);
      sender.Ok? && body.Ok? ==>
        && out.calls == [RepositoryInput(body.value, sender.value)]
        && IsAcceptedBody(body.value) && IsUuid(out.calls[0].senderId)
        && (deps.createKudos(out.calls[0]).Returns? ==> out.result == ServiceResult(201, CreatedBody(deps.createKudos(out.calls[0]).value)))
        && (deps.createKudos(out.calls[0]).Throws? ==> out.result == ServiceResult(500, Failed(CreateFailedMessage)))
  {
    var sender := ParseSenderIdHeader(input.senderIdHeader);
    if sender.Err? then
      Handled(ServiceResult(400, ValidationFailed(InvalidHeaderMessage, sender.error)), [])
    else
      var body := ParseCreateKudosBody(input.body);
      if body.Err? then
        Handled(ServiceResult(400, ValidationFailed(InvalidBodyMessage, body.error)), [])
      else
        var call := RepositoryInput(body.value, sender.value);
        match deps.createKudos(call)
        case Returns(kudos) => Handled(ServiceResult(201, CreatedBody(kudos)), [call])
        case Throws => Handled(ServiceResult(500, Failed(CreateFailedMessage)), [call])
  }

  /** `handleListKudos`. An invalid query answers 400 with its issues and calls
      nothing. A valid one calls the repository exactly once with the parsed
      limit and offset; the items it returns are answered with 200 and a
      pagination that echoes the limit and offset and counts the items, a
      thrown error with 500. */
  function HandleListKudos(query: RawQuery, deps: Dependencies): (out: Handled<ListKudosQuery>)
    ensures var q := ParseListKudosQuery(query);
      q.Err? ==> out == Handled(ServiceResult(400, ValidationFailed(InvalidQueryMessage, q.error)), [])
    ensures var q := ParseListKudosQuery(query);
      q.Ok? ==>
        && out.calls == [q.value]
        && 1 <= q.value.limit <= MaxLimit && 0 <= q.value.offset
        && (deps.listKudos(q.value).Returns? ==>
              var items := deps.listKudos(q.value).value;
              out.result == ServiceResult(200, ListBody(ListKudosResponse(items, Pagination(q.value.limit, q.value.offset, |items|)))))
        && (deps.listKudos(q.value).Throws? ==> out.result == ServiceResult(500, Failed(FetchFailedMessage)))
  {
    var q := ParseListKudosQuery(query);
    if q.Err? then
      Handled(ServiceResult(400, ValidationFailed(InvalidQueryMessage, q.error)), [])
    else
      var ListKudosQuery(limit, offset) := q.value;
      match deps.listKudos(ListKudosQuery(limit, offset))
      case Returns(items) =>
        Handled(ServiceResult(200, ListBody(ListKudosResponse(items, Pagination(limit, offset, |items|)))), [q.value])
      case Throws => Handled(ServiceResult(500, Failed(FetchFailedMessage)), [q.value])
  }

  // ---------------------------------------------------------------------------
  // Properties of the handlers
  // ---------------------------------------------------------------------------

  /** The statuses `handleCreateKudos` answers with, and which ones call the
      repository: 400 exactly when the input is invalid, and then no call. */
  lemma CreateStatuses(input: CreateKudosInput, deps: Dependencies)
    ensures var out := HandleCreateKudos(input, deps);
      && out.result.status in {400, 201, 500}
      && (out.result.status == 400 <==> out.calls == [])
      && (out.result.status == 400 <==>
            ParseSenderIdHeader(input.senderIdHeader).Err? || ParseCreateKudosBody(input.body).Err?)
  {
  }

  /** Which body goes with which create status: a kudos with 201, an error
      body with 400 or 500. */
  lemma CreateResultShape(input: CreateKudosInput, deps: Dependencies)
    ensures var r := HandleCreateKudos(input, deps).result;
      || (r.status == 201 && r.body.CreatedBody?)
      || (r.status == 400 && r.body.ValidationFailed?)
      || (r.status == 500 && r.body.Failed?)
  {
  }

  /** A missing or malformed header is reported as such whatever the body is. */
  lemma HeaderCheckedFirst(header: Option<string>, body1: RawBody, body2: RawBody, deps: Dependencies)
    requires header.None? || !IsUuid(header.value)
    ensures HandleCreateKudos(CreateKudosInput(header, body1), deps) == HandleCreateKudos(CreateKudosInput(header, body2), deps)
    ensures HandleCreateKudos(CreateKudosInput(header, body1), deps).result ==
      ServiceResult(400, ValidationFailed(InvalidHeaderMessage, Issues(false, {SenderId})))
  {
  }

  /** A valid header and body make exactly one repository call, with the
      parsed body and the sender. */
  lemma ValidInputCallsOnce(input: CreateKudosInput, deps: Dependencies, sender: string, body: CreateKudosBody)
    requires ParseSenderIdHeader(input.senderIdHeader) == Ok(sender)
    requires ParseCreateKudosBody(input.body) == Ok(body)
    ensures HandleCreateKudos(input, deps).calls == [NewKudos(sender, body.receiverId, body.message, body.category)]
  {
  }

  /** A body that the client sends for an accepted form, with a UUID sender,
      reaches the repository unchanged. */
  lemma AcceptedBodyReachesRepository(sender: string, body: CreateKudosBody, deps: Dependencies)
    requires IsUuid(sender) && IsAcceptedBody(body)
    ensures HandleCreateKudos(CreateKudosInput(Some(sender), ToRawBody(body)), deps).calls
      == [NewKudos(sender, body.receiverId, body.message, body.category)]
  {
    ReparseAcceptedBody(body);
    ValidInputCallsOnce(CreateKudosInput(Some(sender), ToRawBody(body)), deps, sender, body);
  }

  /** The message of the kudos stored through the handler never carries
      whitespace at either end and is 1 to 500 code units long. */
  lemma StoredMessageIsTrimmed(input: CreateKudosInput, deps: Dependencies)
    requires HandleCreateKudos(input, deps).calls != []
    ensures var call := HandleCreateKudos(input, deps).calls[0];
      IsTrimmed(call.message) && 1 <= Utf16Length(call.message) <= MaxMessageLength
  {
  }

  /** A message of 501 letters or a category outside the set is rejected as an
      invalid body and the repository is not called. */
  lemma CreateRejectsLongMessageAndUnknownCategory(sender: string, receiver: string, category: string, deps: Dependencies)
    requires IsUuid(sender) && !IsKudosCategory(category)
    ensures var out := HandleCreateKudos(CreateKudosInput(Some(sender),
                 BodyObject(Str(receiver), Str(Repeat('a', 501)), Str("Thank You"))), deps);
      out.result.status == 400 && out.result.body.message == InvalidBodyMessage && out.calls == []
    ensures var out := HandleCreateKudos(CreateKudosInput(Some(sender),
                 BodyObject(Str(receiver), Str("Thanks!"), Str(category))), deps);
      out.result.status == 400 && out.result.body.message == InvalidBodyMessage && out.calls == []
  {
    RepeatedLetterMessage(501);
  }

  /** The statuses `handleListKudos` answers with, and which ones call the
      repository. */
  lemma ListStatuses(query: RawQuery, deps: Dependencies)
    ensures var out := HandleListKudos(query, deps);
      && out.result.status in {400, 200, 500}
      && (out.result.status == 400 <==> out.calls == [])
      && (out.result.status == 400 <==> ParseListKudosQuery(query).Err?)
  {
  }

  /** Which body goes with which list status: a page with 200, an error body
      with 400 or 500. */
  lemma ListResultShape(query: RawQuery, deps: Dependencies)
    ensures var r := HandleListKudos(query, deps).result;
      || (r.status == 200 && r.body.ListBody?)
      || (r.status == 400 && r.body.ValidationFailed?)
      || (r.status == 500 && r.body.Failed?)
  {
  }

  /** An empty query lists with the default page: limit 20, offset 0. */
  lemma EmptyQueryUsesDefaults(deps: Dependencies)
    ensures HandleListKudos(QueryObject(Absent, Absent), deps).calls == [ListKudosQuery(20, 0)]
  {
    EmptyQueryDefaults();
  }

  /** Served by the repository over an order of the table, a list answer holds
      at most `limit` items, counts them in its pagination, and lists them
      newest first. */
  lemma ListServedByRepository(query: RawQuery, deps: Dependencies, order: seq<Row>)
    requires AllRowsValid(order) && SortedNewestFirst(order)
    requires ParseListKudosQuery(query).Ok?
    requires var q := ParseListKudosQuery(query).value;
      deps.listKudos(q) == Returns(Page(order, q.limit, q.offset))
    ensures var out := HandleListKudos(query, deps);
      && out.result.status == 200
      && out.result.body.ListBody?
      && |out.result.body.response.items| <= out.result.body.response.pagination.limit
      && out.result.body.response.pagination.count == |out.result.body.response.items|
      && NewestFirstDtos(out.result.body.response.items)
  {
  }

  /** The list cases the service's tests exercise: limit 0, limit 101 and
      offset -1 are rejected without a call; limit 1 with offset 2 calls the
      repository with exactly those numbers. */
  lemma ListQueryScenarios(deps: Dependencies)
    ensures HandleListKudos(QueryObject(Str("0"), Str("2")), deps).result.status == 400
    ensures HandleListKudos(QueryObject(Str("101"), Str("0")), deps).result.status == 400
    ensures HandleListKudos(QueryObject(Str("10"), Str("-1")), deps).result.status == 400
    ensures HandleListKudos(QueryObject(Str("1"), Str("2")), deps).calls == [ListKudosQuery(1, 2)]
  {
    LimitFixtures();
    OffsetFixtures();
  }
}
