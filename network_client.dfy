/**
  Finance/Model/NetworkClient.swift: the errors of the HTTP client and the
  decision `request` takes from the outcome of one round trip. Building the
  URL and the request, the session and the JSON coders are not modelled;
  their outcomes are the inputs of `RequestOutcome`.
*/
module NetworkClient {
  import opened Wrappers

  /**
    The client's errors. `NoInternet` is thrown by the account service and
    matched by the transactions list; it is not among the declared cases, so
    it is added here with no description of its own.
  */
  datatype NetworkError =
    | InvalidUrl
    | InvalidResponse
    | Unauthorized
    | ServerError(code: int)
    | DecodingError
    | EncodingError
    | UnknownError
    | NoInternet

  /** `errorDescription`. */
  function ErrorDescription(e: NetworkError): (r: Option<string>)
    ensures r.None? <==> e == NoInternet
  {
    match e
    case InvalidUrl => Some("Неверный URL.")
    case InvalidResponse => Some("Некорректный ответ от сервера.")
    case Unauthorized => Some("Вы не авторизованы.")
    case ServerError(_) => Some("Ошибка сервера.")
    case DecodingError => Some("Не удалось декодировать ответ сервера.")
    case EncodingError => Some("Не удалось закодировать данные запроса.")
    case UnknownError => Some("Неизвестная ошибка.")
    case NoInternet => None
  }

  /** What an `async throws` call can throw, as the view models tell errors apart. */
  datatype Failure =
    | Cancelled
    | Network(error: NetworkError)
    | Other(description: string)

  /** The system's text for an error without a description of its own. */
  const GenericDescription: string := "The operation couldn’t be completed."

  /** `error.localizedDescription`. */
  function Describe(f: Failure): string {
    match f
    case Cancelled => GenericDescription
    case Network(e) => ErrorDescription(e).GetOr(GenericDescription)
    case Other(d) => d
  }

  /** Every server error reads the same, whatever its status. */
  lemma ServerErrorsReadAlike(a: int, b: int)
    ensures Describe(Network(ServerError(a))) == Describe(Network(ServerError(b))) == "Ошибка сервера."
  {
  }

  /** The status `switch`: `None` lets the response on to decoding. */
  function ClassifyStatus(status: int): (r: Option<NetworkError>)
    ensures r.None? <==> 200 <= status < 300
    ensures r == Some(Unauthorized) <==> status == 401
    ensures r == Some(ServerError(status)) <==> 400 <= status < 600 && status != 401
    ensures r == Some(UnknownError) <==> status < 200 || 300 <= status < 400 || status >= 600
  {
    if 200 <= status < 300 then None
    else if status == 401 then Some(Unauthorized)
    else if 400 <= status < 500 || 500 <= status < 600 then Some(ServerError(status))
    else Some(UnknownError)
  }

  /** The classification only ever yields a status error, never an encoding, decoding or transport one. */
  lemma ClassifyStatusErrors(status: int)
    ensures ClassifyStatus(status).Some? ==>
      ClassifyStatus(status).value in {Unauthorized, ServerError(status), UnknownError}
  {
  }

  /** What the session gave back: a response with a status (or not an HTTP response), or a `URLError`. */
  datatype Transport =
    | Response(isHttp: bool, status: int)
    | UrlError(cancelled: bool, description: string)

  /** The value `request` returns: `EmptyResponse()` or the decoded body. */
  datatype Reply<T> = EmptyReply | Decoded(value: T)

  /**
    `request(...)` after the request has been built. `bodyFails` says the
    body did not encode; `expectsEmpty` that `T` is `EmptyResponse`;
    `decoded` is the decoder's result on the response data.
  */
  function RequestOutcome<T>(bodyFails: bool, transport: Transport, expectsEmpty: bool, decoded: Option<T>): Result<Reply<T>, Failure> {
    if bodyFails then Failure(Network(EncodingError))
    else match transport
      case UrlError(cancelled, description) =>
        if cancelled then Failure(Cancelled) else Failure(Other(description))
      case Response(isHttp, status) =>
        if !isHttp then Failure(Network(InvalidResponse))
        else match ClassifyStatus(status)
          case Some(e) => Failure(Network(e))
          case None =>
            if status == 204 then
              (if expectsEmpty then Success(EmptyReply) else Failure(Network(DecodingError)))
            else match decoded
              case Some(v) => Success(Decoded(v))
              case None => Failure(Network(DecodingError))
  }

  /** A body that fails to encode ends the request before anything is sent, whatever the server would have said. */
  lemma EncodingFailsFirst<T>(transport: Transport, expectsEmpty: bool, decoded: Option<T>)
    ensures RequestOutcome(true, transport, expectsEmpty, decoded) == Failure(Network(EncodingError))
  {
  }

  /** A cancelled `URLError` becomes a cancellation; any other one is passed on as it is. */
  lemma TransportErrors<T>(cancelled: bool, description: string, expectsEmpty: bool, decoded: Option<T>)
    ensures RequestOutcome(false, UrlError(cancelled, description), expectsEmpty, decoded)
         == if cancelled then Failure(Cancelled) else Failure(Other(description))
  {
  }

  /** A status outside 200..<300 fails with its classification, and the body is never decoded. */
  lemma StatusErrors<T>(status: int, expectsEmpty: bool, decoded: Option<T>)
    requires !(200 <= status < 300)
    ensures RequestOutcome(false, Response(true, status), expectsEmpty, decoded) == Failure(Network(ClassifyStatus(status).value))
    ensures status == 401 ==> RequestOutcome(false, Response(true, status), expectsEmpty, decoded) == Failure(Network(Unauthorized))
  {
  }

  /** 204 is accepted only when no body is expected; it is never decoded. */
  lemma NoContent<T>(expectsEmpty: bool, decoded: Option<T>)
    ensures RequestOutcome(false, Response(true, 204), expectsEmpty, decoded).Success? <==> expectsEmpty
    ensures !expectsEmpty ==> RequestOutcome(false, Response(true, 204), expectsEmpty, decoded) == Failure(Network(DecodingError))
  {
  }

  /** Any other success status succeeds exactly when the body decodes, with the decoded value. */
  lemma DecodedReply<T>(status: int, expectsEmpty: bool, decoded: Option<T>)
    requires 200 <= status < 300 && status != 204
    ensures RequestOutcome(false, Response(true, status), expectsEmpty, decoded)
         == if decoded.Some? then Success(Decoded(decoded.value)) else Failure(Network(DecodingError))
  {
  }
}
