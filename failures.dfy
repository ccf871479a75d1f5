/**
 * How a failed hub download is reported. The hub client raises either an
 * HTTP error carrying the response's status code or some other exception;
 * each is mapped to one of four outcomes, and every outcome ends the run
 * with exit status 1.
 */
module Failures {

  /** What the hub call can raise. */
  datatype FetchError =
    | HttpError(status: int)
    | OtherError(message: string)

  /** The four reports of the `except` clauses. */
  datatype Outcome =
    | NotFound
    | AccessDenied
    | HttpFailure(status: int)
    | GenericFailure(message: string)

  /** `sys.exit(1)`, shared by every failure path. */
  const FailureExitCode: int := 1

  const StatusNotFound: int := 404
  const StatusUnauthorized: int := 401

  /** The `if/elif/else` on the status code and the catch-all `except Exception`. */
  function Classify(e: FetchError): (o: Outcome)
    ensures o == NotFound <==> e == HttpError(StatusNotFound)
    ensures o == AccessDenied <==> e == HttpError(StatusUnauthorized)
    ensures o.HttpFailure? <==> e.HttpError? && e.status != StatusNotFound && e.status != StatusUnauthorized
    ensures o.HttpFailure? ==> o.status == e.status
    ensures o.GenericFailure? <==> e.OtherError?
    ensures o.GenericFailure? ==> o.message == e.message
  {
    match e
    case HttpError(status) =>
      if status == StatusNotFound then NotFound
      else if status == StatusUnauthorized then AccessDenied
      else HttpFailure(status)
    case OtherError(message) => GenericFailure(message)
  }

  /** The report identifies the error: distinct errors are never reported alike. */
  lemma ClassifyKeepsDetail(e1: FetchError, e2: FetchError)
    requires Classify(e1) == Classify(e2)
    ensures e1 == e2
  {
  }
}
