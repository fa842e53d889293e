/**
 * The client's view of the API: the constants it shares with the feed cache,
 * the error it throws for a non-ok response, the choice of that error's
 * message, and the two requests it sends. The transport itself is not
 * modelled: a response is given by its status, its status text and its body.
 */
module KudosApi {
  import opened Wrappers
  import opened JsStrings
  import opened KudosTypes
  import opened KudosSchema
  import opened KudosRepository
  import opened KudosService

  /** `DEMO_SENDER_ID`, the sender every request from this client claims. */
  const DemoSenderId: string := "11111111-1111-4111-8111-111111111111"

  /** `FEED_LIMIT`, the size of the feed page. */
  const FeedLimit: int := 20

  /** A react-query key `[name, limit, offset]`. */
  datatype QueryKey = QueryKey(name: string, limit: int, offset: int)

  /** `kudosQueryKey`: `['kudos', FEED_LIMIT, 0]`. */
  const KudosQueryKey: QueryKey := QueryKey("kudos", FeedLimit, 0)

  const RequestFailedMessage: string := "Request failed."

  // ---------------------------------------------------------------------------
  // createApiError
  // ---------------------------------------------------------------------------

  /** `ApiError`: an `Error` whose optional `status` is set after construction. */
  class ApiError {
    var message: string
    var status: Option<int>

    /** `new Error(message)`: no status yet. */
    constructor (message: string)
      ensures this.message == message && status.None?
    {
      this.message := message;
      status := None;
    }
  }

  /** `createApiError(status, message)`: a fresh error carrying the message
      and, unchanged, the HTTP status. */
  method CreateApiError(status: int, message: string) returns (error: ApiError)
    ensures fresh(error)
    ensures error.message == message && error.status == Some(status)
  {
    error := new ApiError(message);
    error.status := Some(status);
  }

  // ---------------------------------------------------------------------------
  // parseErrorMessage
  // ---------------------------------------------------------------------------

  /** What reading `payload.message` gives: a string, `null`, or nothing. A
      payload that is `null` or not an object also gives nothing; for `null`
      the read throws, and the `catch` takes the same fallback. */
  datatype MessageProperty = NoMessage | NullMessage | Message(text: string)

  /** A response body: not JSON, or the parsed value together with what its
      `message` property reads as. */
  datatype Body<T> = Unparseable | Parsed(value: T, message: MessageProperty)

  /** `parseErrorMessage`: the body's `message` when it parses and the
      property is neither `null` nor missing (an empty string included);
      otherwise the status text when it is non-empty; otherwise
      `Request failed.`. */
  function ParseErrorMessage<T>(statusText: string, body: Body<T>): (m: string)
    ensures body.Parsed? && body.message.Message? ==> m == body.message.text
    ensures !(body.Parsed? && body.message.Message?) && statusText != [] ==> m == statusText
    ensures !(body.Parsed? && body.message.Message?) && statusText == [] ==> m == RequestFailedMessage
  {
    var fallback := if statusText != [] then statusText else RequestFailedMessage;
    match body
    case Unparseable => fallback
    case Parsed(_, property) =>
      match property
      case Message(text) => text
      case _ => fallback
  }

  /** The message is never empty unless the server sent an empty one. */
  lemma ErrorMessageNonEmpty<T>(statusText: string, body: Body<T>)
    requires !(body.Parsed? && body.message == Message(""))
    ensures ParseErrorMessage(statusText, body) != []
  {
  }

  // ---------------------------------------------------------------------------
  // The ok / non-ok branching of fetchKudos and createKudos
  // ---------------------------------------------------------------------------

  datatype HttpResponse<T> = HttpResponse(status: int, statusText: string, body: Body<T>)

  /** `response.ok`: a status in 200..299. */
  predicate IsOk(status: int) {
    200 <= status <= 299
  }

  /** How a request settles: with the parsed body, with an `ApiError`'s message
      and status, or with the error `response.json()` throws on a body that is
      not JSON. */
  datatype ClientOutcome<T> = Resolved(value: T) | ApiFailure(status: int, message: string) | JsonFailure

  /** The tail of `fetchKudos` and `createKudos`: only a non-ok response throws
      an `ApiError`; an ok body is returned as it was parsed, without any
      schema check. */
  function ReadResponse<T>(response: HttpResponse<T>): (o: ClientOutcome<T>)
    ensures o.ApiFailure? <==> !IsOk(response.status)
    ensures o.ApiFailure? ==> o.status == response.status && o.message == ParseErrorMessage(response.statusText, response.body)
    ensures IsOk(response.status) && response.body.Parsed? ==> o == Resolved(response.body.value)
    ensures o.JsonFailure? <==> IsOk(response.status) && response.body.Unparseable?
  {
    if !IsOk(response.status) then ApiFailure(response.status, ParseErrorMessage(response.statusText, response.body))
    else if response.body.Unparseable? then JsonFailure
    else Resolved(response.body.value)
  }

  // ---------------------------------------------------------------------------
  // The two requests
  // ---------------------------------------------------------------------------

  /** The query of `GET /kudos?limit=${FEED_LIMIT}&offset=0`. */
  function FeedQuery(): RawQuery {
    QueryObject(Str(DecimalString(FeedLimit)), Str("0"))
  }

  /** The feed request asks the server for exactly the page its cache key names. */
  lemma FeedQueryMatchesKey()
    ensures ParseListKudosQuery(FeedQuery()) == Ok(ListKudosQuery(KudosQueryKey.limit, KudosQueryKey.offset))
  {
    DecimalLimit(20);
    DecimalOffset(0);
  }

  /** `POST /kudos` as the server receives it: the demo sender in `x-user-id`
      and the payload as a JSON object. */
  function CreateRequest(payload: CreateKudosBody): CreateKudosInput {
    CreateKudosInput(Some(DemoSenderId), ToRawBody(payload))
  }

  /** The server never rejects the client's sender header. */
  lemma DemoSenderAccepted()
    ensures ParseSenderIdHeader(Some(DemoSenderId)) == Ok(DemoSenderId)
  {
    UuidFixtures();
  }

  /** A payload the schema accepts reaches the repository from this client
      unchanged, with the demo sender. */
  lemma AcceptedPayloadReachesRepository(payload: CreateKudosBody, deps: Dependencies)
    requires IsAcceptedBody(payload)
    ensures HandleCreateKudos(CreateRequest(payload), deps).calls
      == [NewKudos(DemoSenderId, payload.receiverId, payload.message, payload.category)]
  {
    DemoSenderAccepted();
    AcceptedBodyReachesRepository(DemoSenderId, payload, deps);
  }

  // ---------------------------------------------------------------------------
  // Server answers as the client reads them
  // ---------------------------------------------------------------------------

  /** What `payload.message` reads on a handler's JSON body: the `message` of
      an error body, the kudos' own `message` on a created kudos, nothing on a
      list. */
  function MessageOf(body: ResponseBody): MessageProperty {
    match body
    case ValidationFailed(message, _) => Message(message)
    case Failed(message) => Message(message)
    case CreatedBody(kudos) => Message(kudos.message)
    case ListBody(_) => NoMessage
  }

  /** A handler's answer on the wire, sent with some status text. */
  function Transmit(result: ServiceResult, statusText: string): HttpResponse<ResponseBody> {
    HttpResponse(result.status, statusText, Parsed(result.body, MessageOf(result.body)))
  }

  /** An error answer reaches the client as an `ApiError` with the server's
      status and message, whatever the status text. */
  lemma ErrorAnswerAsClientSeesIt(result: ServiceResult, statusText: string)
    requires !IsOk(result.status) && (result.body.ValidationFailed? || result.body.Failed?)
    ensures ReadResponse(Transmit(result, statusText)) == ApiFailure(result.status, result.body.message)
  {
  }

  /** An ok answer resolves with the handler's body exactly as sent. */
  lemma OkAnswerAsClientSeesIt(result: ServiceResult, statusText: string)
    requires IsOk(result.status)
    ensures ReadResponse(Transmit(result, statusText)) == Resolved(result.body)
  {
  }

  /** Every answer of `handleCreateKudos` reaches the client as intended: a 400
      or 500 throws an error with the server's message and status, whatever
      the status text; a 201 resolves with the handler's body itself, the
      created kudos. */
  lemma CreateAnswerAsClientSeesIt(input: CreateKudosInput, deps: Dependencies, statusText: string)
    ensures var result := HandleCreateKudos(input, deps).result;
      var o := ReadResponse(Transmit(result, statusText));
      && (result.status != 201 ==> o == ApiFailure(result.status, result.body.message))
      && (result.status == 201 ==> o == Resolved(result.body) && o.value.CreatedBody?)
  {
    var result := HandleCreateKudos(input, deps).result;
    CreateResultShape(input, deps);
    if result.status == 201 {
      OkAnswerAsClientSeesIt(result, statusText);
    } else {
      ErrorAnswerAsClientSeesIt(result, statusText);
    }
  }

  /** Likewise for `handleListKudos`: a 400 or 500 becomes an error with the
      server's message, a 200 resolves with the handler's body itself, the
      page and its pagination. */
  lemma ListAnswerAsClientSeesIt(query: RawQuery, deps: Dependencies, statusText: string)
    ensures var result := HandleListKudos(query, deps).result;
      var o := ReadResponse(Transmit(result, statusText));
      && (result.status != 200 ==> o == ApiFailure(result.status, result.body.message))
      && (result.status == 200 ==> o == Resolved(result.body) && o.value.ListBody?)
  {
    var result := HandleListKudos(query, deps).result;
    ListResultShape(query, deps);
    if result.status == 200 {
      OkAnswerAsClientSeesIt(result, statusText);
    } else {
      ErrorAnswerAsClientSeesIt(result, statusText);
    }
  }
}
