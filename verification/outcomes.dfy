/**
 * The outcome classifier: what one probe of the supervised service can
 * return, and which branch of the monitor step it selects.
 */
module Outcomes {

  /** The error code the HTTP client reports when a probe exceeds its deadline. */
  const TimeoutCode: string := "ECONNABORTED"

  /**
   * A completed probe: either a resolved response carrying its HTTP status,
   * or a rejected request carrying the client's error code.
   */
  datatype ProbeResult = Response(status: int) | Rejected(code: string)

  /** The three failure categories that keep a consecutive-outcome counter. */
  datatype Category = Forbidden | ServerError | Timeout

  /** The branch of the monitor step a probe result selects. */
  datatype Verdict =
    | Success                  // status 200: every streak is cleared
    | Failure(cat: Category)   // 403, 500 or a timeout: one streak grows
    | ConnectionFailure        // any other rejection: logged only
    | Ignored                  // any other resolved status: no branch matches

  /** The canonical probe result of each failure category. */
  function ProbeFor(cat: Category): ProbeResult
  {
    match cat
    case Forbidden => Response(403)
    case ServerError => Response(500)
    case Timeout => Rejected(TimeoutCode)
  }

  function Classify(r: ProbeResult): (v: Verdict)
    ensures v == Success <==> r == Response(200)
    ensures forall cat: Category :: v == Failure(cat) <==> r == ProbeFor(cat)
    ensures v == ConnectionFailure <==> r.Rejected? && r.code != TimeoutCode
    ensures v == Ignored <==> r.Response? && r.status !in {200, 403, 500}
  {
    match r
    case Response(status) =>
      if status == 200 then Success
      else if status == 403 then Failure(Forbidden)
      else if status == 500 then Failure(ServerError)
      else Ignored
    case Rejected(code) =>
      if code == TimeoutCode then Failure(Timeout) else ConnectionFailure
  }

  /** Each failure category is reached by exactly one probe result. */
  lemma ClassifyInvertsProbeFor(cat: Category, r: ProbeResult)
    ensures Classify(ProbeFor(cat)) == Failure(cat)
    ensures Classify(r) == Failure(cat) <==> r == ProbeFor(cat)
  {
  }
}
