/** The error middleware: every error that reaches it becomes a status and a message. */
module ErrorHandling {
  import opened Common
  import Uploads

  /** What can reach the middleware: an application error made by `createCustomError`,
      an error raised by the upload layer, or anything else (a database failure, a bug). */
  datatype Failure = CustomApiError(message: string, statusCode: nat) | MulterError(message: string) | OtherError(detail: string)

  datatype HttpResponse = HttpResponse(status: nat, message: string)

  const GenericMessage := "something went wrong try again"

  function ErrorHandlerMiddleware(err: Failure): (r: HttpResponse)
    ensures err.CustomApiError? ==> r == HttpResponse(err.statusCode, err.message)
    ensures err.MulterError? && err.message == "File too large" ==> r == HttpResponse(401, "File too large")
    ensures err.MulterError? && err.message != "File too large" ==> r == HttpResponse(401, "Could not upload the File")
    ensures err.OtherError? ==> r == HttpResponse(500, GenericMessage)
  {
    match err
    case CustomApiError(message, statusCode) => HttpResponse(statusCode, message)
    case MulterError(message) =>
      if message != "File too large" then HttpResponse(401, "Could not upload the File")
      else HttpResponse(401, message)
    case OtherError(_) => HttpResponse(500, GenericMessage)
  }

  /** `createCustomError(message, status)` yields a CustomAPIError. */
  function FromApiError(e: ApiError): Failure
  {
    CustomApiError(e.message, e.status)
  }

  /** An application error reaches the client with its own status and message. */
  lemma ApiErrorReachesClient(e: ApiError)
    ensures ErrorHandlerMiddleware(FromApiError(e)) == HttpResponse(e.status, e.message)
  {
  }

  /** Nothing about an unexpected error leaks into the response. */
  lemma UnexpectedErrorsLookAlike(d1: string, d2: string)
    ensures ErrorHandlerMiddleware(OtherError(d1)) == ErrorHandlerMiddleware(OtherError(d2))
  {
  }

  /** A file the upload filter refuses is answered with 401 and 'Invalid file format'. */
  lemma RejectedUploadAnswer(file: Uploads.UploadedFile)
    requires file.mimetype !in Uploads.AllowedMimetypes
    ensures Uploads.FileFilter(file).Reject?
    ensures ErrorHandlerMiddleware(FromApiError(Uploads.FileFilter(file).error)) == HttpResponse(401, "Invalid file format")
  {
  }
}
