/**
 * app/main.py: API-key authentication of POST /download and the shaping of every failure
 * into an HTTP status and a JSON error body. The downloader's outcome comes in as a value.
 */
module Api {
  import opened Wrappers
  import opened Models
  import Downloader

  const BadRequest := 400
  const Unauthorized := 401
  const Forbidden := 403
  const InternalServerError := 500

  const MissingKeyMessage := "Missing API Key. Please provide X-API-Key header."
  const InvalidKeyMessage := "Invalid API Key"
  const DownloadFailedPrefix := "Failed to download video: "
  const InternalErrorMessage := "Internal server error"

  /** A raised `HTTPException`. */
  datatype HttpException = HttpException(statusCode: int, detail: string)

  /** A JSON answer with a status code and an error body. */
  datatype JsonResponse = JsonResponse(statusCode: int, content: ErrorResponse)

  /** What POST /download answers: 200 with the download, or an error response. */
  datatype Reply = Ok(body: DownloadResponse) | Error(response: JsonResponse)

  /**
   * The X-API-Key check: a missing key is refused with 401, a present key other than the
   * configured one with 403, and the configured key is accepted and handed back.
   */
  function VerifyApiKey(apiKey: Option<string>, configured: string): (r: Result<string, HttpException>)
    ensures apiKey.None? <==> r == Failure(HttpException(Unauthorized, MissingKeyMessage))
    ensures apiKey.Some? && apiKey.value != configured <==> r == Failure(HttpException(Forbidden, InvalidKeyMessage))
    ensures r.Success? <==> apiKey == Some(configured)
    ensures r.Success? ==> r.value == apiKey.value
    ensures r.Failure? ==> r.error.statusCode in {Unauthorized, Forbidden}
  {
    if apiKey.None? then
      Failure(HttpException(Unauthorized, MissingKeyMessage))
    else if apiKey.value != configured then
      Failure(HttpException(Forbidden, InvalidKeyMessage))
    else
      Success(apiKey.value)
  }

  /**
   * The try/except around the downloader: a result passes through, and any exception is
   * re-raised as 400 whose detail is the fixed prefix followed by the exception's message.
   */
  function DownloadOrRaise(outcome: Result<DownloadResponse, string>): (r: Result<DownloadResponse, HttpException>)
    ensures outcome.Success? <==> r.Success?
    ensures outcome.Success? ==> r.value == outcome.value
    ensures outcome.Failure? ==>
      && r.error.statusCode == BadRequest
      && |r.error.detail| == |DownloadFailedPrefix| + |outcome.error|
      && r.error.detail[..|DownloadFailedPrefix|] == DownloadFailedPrefix
      && r.error.detail[|DownloadFailedPrefix|..] == outcome.error
  {
    match outcome
    case Success(response) => Success(response)
    case Failure(message) => Failure(HttpException(BadRequest, DownloadFailedPrefix + message))
  }

  /** The handler for raised HTTP exceptions: same status, the detail goes in "error", "detail" is null. */
  function HttpExceptionHandler(exc: HttpException): (resp: JsonResponse)
    ensures resp.statusCode == exc.statusCode
    ensures resp.content.error == exc.detail && resp.content.detail.None?
  {
    JsonResponse(exc.statusCode, ErrorResponse(exc.detail, None))
  }

  /** The handler for every other exception: 500, a fixed error text, and the exception's text as detail. */
  function GeneralExceptionHandler(message: string): (resp: JsonResponse)
    ensures resp.statusCode == InternalServerError
    ensures resp.content.error == InternalErrorMessage && resp.content.detail == Some(message)
  {
    JsonResponse(InternalServerError, ErrorResponse(InternalErrorMessage, Some(message)))
  }

  /**
   * POST /download as the client sees it: authentication first, then the download; every
   * raised HTTPException goes through its handler.
   */
  function PostDownload(apiKey: Option<string>, configured: string, download: Result<DownloadResponse, string>): (reply: Reply)
    ensures apiKey.None? ==>
      reply == Error(JsonResponse(Unauthorized, ErrorResponse(MissingKeyMessage, None)))
    ensures apiKey.Some? && apiKey.value != configured ==>
      reply == Error(JsonResponse(Forbidden, ErrorResponse(InvalidKeyMessage, None)))
    ensures apiKey == Some(configured) && download.Success? ==> reply == Ok(download.value)
    ensures apiKey == Some(configured) && download.Failure? ==>
      reply == Error(JsonResponse(BadRequest, ErrorResponse(DownloadFailedPrefix + download.error, None)))
    ensures reply.Error? ==> reply.response.statusCode in {BadRequest, Unauthorized, Forbidden}
  {
    match VerifyApiKey(apiKey, configured)
    case Failure(exc) => Error(HttpExceptionHandler(exc))
    case Success(_) =>
      match DownloadOrRaise(download)
      case Success(response) => Ok(response)
      case Failure(exc) => Error(HttpExceptionHandler(exc))
  }

  /** A request that fails authentication gets the same answer whatever the download would have done. */
  lemma RefusedRequestIgnoresDownload(apiKey: Option<string>, configured: string, d1: Result<DownloadResponse, string>, d2: Result<DownloadResponse, string>)
    requires apiKey != Some(configured)
    ensures PostDownload(apiKey, configured, d1) == PostDownload(apiKey, configured, d2)
    ensures PostDownload(apiKey, configured, d1).Error?
  {
  }

  /** When the tool leaves no output file, an authenticated client gets 400 naming that failure twice. */
  lemma NoOutputFileAnswer(configured: string)
    ensures PostDownload(Some(configured), configured, Failure(Downloader.NoOutputMessage))
      == Error(JsonResponse(BadRequest, ErrorResponse("Failed to download video: Failed to download video", None)))
  {
    assert DownloadFailedPrefix + Downloader.NoOutputMessage == "Failed to download video: Failed to download video";
  }
}
