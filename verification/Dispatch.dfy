/** What a worker decides from a claimed row and the answer to its POST. */
module Dispatch {
  import opened Types
  import opened Backoff

  datatype Config = Config(
    endpointUrl: Bytes,
    endpointOrigin: Bytes,
    queue: Bytes,
    maxAttempts: int,
    maxPayloadBytes: nat,
    leaseSeconds: int,
    retryBaseSeconds: int,
    retryMaxSeconds: int)

  predicate ValidConfig(c: Config) {
    && 1 <= c.maxAttempts <= 100
    && 1 <= c.maxPayloadBytes <= 1024 * 1024
    && 1 <= c.leaseSeconds <= 3_600
    && ValidRetry(c.retryBaseSeconds, c.retryMaxSeconds)
  }

  datatype SendError =
    | Timeout
    | TransportFailure
    | ResponseTooLarge
    | DestinationNotAllowed
    | InvalidRequest
    | RequestTooLarge
    | Unknown

  datatype HttpResult =
    | Response(status: int, bodySha256: Bytes)
    | DomainError(error: SendError)
    | RuntimeFailure

  datatype Failure = Failure(code: Outcome, retryable: bool)

  function HttpStatusFailure(status: int): Failure {
    Failure(HttpStatus(status), status == 408 || status == 429 || 500 <= status < 600)
  }

  function HttpDomainFailure(error: SendError): Failure {
    match error
    case Timeout => Failure(HttpTimeout, true)
    case TransportFailure => Failure(HttpTransportFailure, true)
    case ResponseTooLarge => Failure(HttpResponseTooLarge, false)
    case DestinationNotAllowed => Failure(HttpDestinationNotAllowed, false)
    case InvalidRequest => Failure(HttpInvalidRequest, false)
    case RequestTooLarge => Failure(HttpRequestTooLarge, false)
    case Unknown => Failure(HttpUnknownFailure, false)
  }

  predicate IsSuccess(result: HttpResult) {
    result.Response? && 200 <= result.status < 300
  }

  /** Why a worker records: the endpoint snapshot no longer matches, or its POST was answered. */
  datatype Cause = EndpointChanged | Answer(result: HttpResult)

  datatype Decision = Decision(receipt: Receipt, status: Status, next: Option<Micros>)

  predicate EndpointMatches(r: DeliveryRecord, c: Config) {
    r.content.endpointUrl == c.endpointUrl && r.content.endpointOrigin == c.endpointOrigin
  }

  /** The retry schedule, or the dead letter, of a failed attempt. */
  function FailedDecision(r: DeliveryRecord, c: Config, failure: Failure, receipt: Receipt, appNow: Micros): Decision {
    if failure.retryable && r.attempts < r.maxAttempts then
      Decision(receipt, RetryScheduled,
        Some(appNow + RetryDelaySeconds(r.attempts, c.retryBaseSeconds, c.retryMaxSeconds) * SECOND))
    else Decision(receipt, DeadLetter, None)
  }

  function Decide(r: DeliveryRecord, c: Config, cause: Cause, appNow: Micros): Decision {
    match cause
    case EndpointChanged => Decision(Receipt(EndpointConfigurationChanged, None, None, appNow), DeadLetter, None)
    case Answer(Response(status, body)) =>
      if 200 <= status < 300 then
        Decision(Receipt(DeliveredOutcome, Some(status), Some(body), appNow), Delivered, None)
      else
        FailedDecision(r, c, HttpStatusFailure(status),
          Receipt(HttpStatus(status), Some(status), Some(body), appNow), appNow)
    case Answer(DomainError(error)) =>
      var failure := HttpDomainFailure(error);
      FailedDecision(r, c, failure, Receipt(failure.code, None, None, appNow), appNow)
    case Answer(RuntimeFailure) =>
      Decision(Receipt(HttpRuntimeFailure, None, None, appNow), Delivering, None)
  }

  /** Receipts after which trying again is pointless. */
  predicate IsPermanent(o: Outcome) {
    match o
    case HttpStatus(code) => !(code == 408 || code == 429 || 500 <= code < 600)
    case HttpResponseTooLarge => true
    case HttpDestinationNotAllowed => true
    case HttpInvalidRequest => true
    case HttpRequestTooLarge => true
    case HttpUnknownFailure => true
    case EndpointConfigurationChanged => true
    case DeliveredOutcome => false
    case HttpTimeout => false
    case HttpTransportFailure => false
    case HttpRuntimeFailure => false
    case LeaseExpired => false
  }

  /** The three ways a dispatch ends are told apart by its cause alone, up to exhaustion. */
  lemma DecisionMeaning(r: DeliveryRecord, c: Config, cause: Cause, appNow: Micros)
    ensures var d := Decide(r, c, cause, appNow);
      && d.status != Queued
      && (d.status == Delivered <==> cause.Answer? && IsSuccess(cause.result))
      && (d.status == Delivered <==> d.receipt.outcome == DeliveredOutcome)
      && (d.status == Delivering <==> cause == Answer(RuntimeFailure))
      && (d.status == RetryScheduled <==> d.next.Some?)
      && (d.status == RetryScheduled ==> r.attempts < r.maxAttempts)
      && (d.status == DeadLetter ==> IsPermanent(d.receipt.outcome) || r.attempts >= r.maxAttempts)
      && d.receipt.outcome != LeaseExpired
  {
  }

  /** What a receipt keeps of an outcome: its own code for each kind, the status and the body digest of a response,
      and the application's time. */
  predicate ReceiptShows(receipt: Receipt, cause: Cause, appNow: Micros) {
    && receipt.occurredAt == appNow
    && match cause
       case EndpointChanged =>
         receipt.outcome == EndpointConfigurationChanged && receipt.httpStatus == None && receipt.responseSha256 == None
       case Answer(Response(status, bodySha256)) =>
         && receipt.httpStatus == Some(status) && receipt.responseSha256 == Some(bodySha256)
         && receipt.outcome == if 200 <= status < 300 then DeliveredOutcome else HttpStatus(status)
       case Answer(DomainError(error)) =>
         && receipt.httpStatus == None && receipt.responseSha256 == None
         && (error == Timeout ==> receipt.outcome == HttpTimeout)
         && (error == TransportFailure ==> receipt.outcome == HttpTransportFailure)
         && (error == ResponseTooLarge ==> receipt.outcome == HttpResponseTooLarge)
         && (error == DestinationNotAllowed ==> receipt.outcome == HttpDestinationNotAllowed)
         && (error == InvalidRequest ==> receipt.outcome == HttpInvalidRequest)
         && (error == RequestTooLarge ==> receipt.outcome == HttpRequestTooLarge)
         && (error == Unknown ==> receipt.outcome == HttpUnknownFailure)
       case Answer(RuntimeFailure) =>
         receipt.outcome == HttpRuntimeFailure && receipt.httpStatus == None && receipt.responseSha256 == None
  }

  lemma DecisionReceipt(r: DeliveryRecord, c: Config, cause: Cause, appNow: Micros)
    ensures ReceiptShows(Decide(r, c, cause, appNow).receipt, cause, appNow)
  {
  }

  /** Worth another attempt: HTTP 408, 429 and 5xx, timeouts and transport failures. */
  predicate IsTransient(cause: Cause) {
    && cause.Answer?
    && match cause.result
       case Response(status, _) => status in {408, 429} || 500 <= status <= 599
       case DomainError(error) => error in {Timeout, TransportFailure}
       case RuntimeFailure => false
  }

  /** Every outcome leads to one state: a retry after the bounded exponential delay while it is transient and attempts
      are left, the lease it had after a runtime failure, and otherwise a delivery or a dead letter. */
  lemma DecisionState(r: DeliveryRecord, c: Config, cause: Cause, appNow: Micros)
    requires ValidConfig(c) && 1 <= r.attempts <= 100
    ensures var d := Decide(r, c, cause, appNow);
      var success := cause.Answer? && cause.result.Response? && 200 <= cause.result.status <= 299;
      && (d.status == Delivered <==> success)
      && (d.status == Delivering <==> cause == Answer(RuntimeFailure))
      && (d.status == RetryScheduled <==> IsTransient(cause) && r.attempts < r.maxAttempts)
      && (d.status == DeadLetter <==>
            !success && cause != Answer(RuntimeFailure) && !(IsTransient(cause) && r.attempts < r.maxAttempts))
      && (d.status != RetryScheduled ==> d.next == None)
      && (d.status == RetryScheduled ==>
            var delay := c.retryBaseSeconds * Pow2(r.attempts - 1);
            d.next == Some(appNow + (if delay <= c.retryMaxSeconds then delay else c.retryMaxSeconds) * 1_000_000))
  {
    RetryDelayIsExact(r.attempts, c.retryBaseSeconds, c.retryMaxSeconds);
  }

  /** An answered failure is retried exactly while it is not permanent and attempts are left. */
  lemma FailureIsRetriedIffWorthIt(r: DeliveryRecord, c: Config, result: HttpResult, appNow: Micros)
    requires !IsSuccess(result) && result != RuntimeFailure
    ensures var d := Decide(r, c, Answer(result), appNow);
      && (d.status == RetryScheduled <==> !IsPermanent(d.receipt.outcome) && r.attempts < r.maxAttempts)
      && (d.status == DeadLetter <==> IsPermanent(d.receipt.outcome) || r.attempts >= r.maxAttempts)
      && (result.Response? ==> d.receipt.outcome == HttpStatus(result.status) && d.receipt.httpStatus == Some(result.status))
      && (result.DomainError? ==>
            && d.receipt.httpStatus == None
            && (IsPermanent(d.receipt.outcome) <==> result.error !in {Timeout, TransportFailure}))
  {
  }
}
