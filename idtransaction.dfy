/**
 * `IDTransaction` (src/backend/idtransaction.ts): a ledger transaction made
 * of a transaction id, a timestamp and a request, with a `sanitize` check
 * that rejects a transaction whose fields are missing or whose request is
 * itself malformed.
 */
module IdTransactions {
  import opened Wrappers

  /** A JavaScript `Date`, kept as an opaque number of milliseconds. */
  type Timestamp = int

  /**
   * The transaction. `R` is the request type; any of the three fields may be
   * `null` (`None`).
   */
  datatype IDTransaction<R> = IDTransaction(
    txId: Option<string>,
    timestamp: Option<Timestamp>,
    request: Option<R>)
  {
    function GetTransactionId(): Option<string> { txId }
    function GetTimestamp(): Option<Timestamp> { timestamp }
    function GetRequest(): Option<R> { request }
  }

  /** The constructor: every argument left out defaults to `null`. */
  function NewIDTransaction<R>(
    txid: Option<string> := None,
    timestamp: Option<Timestamp> := None,
    request: Option<R> := None): (t: IDTransaction<R>)
    ensures t.txId == txid && t.timestamp == timestamp && t.request == request
  {
    IDTransaction(txid, timestamp, request)
  }

  lemma GettersReturnConstructorArguments<R>(
    txid: Option<string>, timestamp: Option<Timestamp>, request: Option<R>)
    ensures NewIDTransaction(txid, timestamp, request).GetTransactionId() == txid
    ensures NewIDTransaction(txid, timestamp, request).GetTimestamp() == timestamp
    ensures NewIDTransaction(txid, timestamp, request).GetRequest() == request
    ensures NewIDTransaction<R>().GetTransactionId() == None
    ensures NewIDTransaction<R>().GetTimestamp() == None
    ensures NewIDTransaction<R>().GetRequest() == None
  {
  }

  /**
   * `MalformedIDChainTransactionException`: a message and, for an invalid
   * request, the exception the request's own check threw.
   */
  datatype MalformedTransaction<E> = MalformedTransaction(message: string, cause: Option<E>)

  const MissingTxId := "Missing txid"
  const MissingTimestamp := "Missing timestamp"
  const MissingRequest := "Missing request"
  const InvalidRequest := "Invalid request"

  /** The transaction id is `null` or the empty string. */
  predicate TxIdMissing<R>(t: IDTransaction<R>) {
    t.txId == None || t.txId == Some("")
  }

  /**
   * `sanitize`: checks, in this order, the transaction id, the timestamp and
   * the request, failing on the first that is missing; then runs the
   * request's own `sanitize` (`sanitizeRequest`, which passes or throws) and
   * wraps its failure. The check reads the transaction and changes nothing.
   */
  function Sanitize<R, E>(t: IDTransaction<R>, sanitizeRequest: R -> Outcome<E>): (r: Outcome<MalformedTransaction<E>>)
    ensures r == Fail(MalformedTransaction(MissingTxId, None)) <==> TxIdMissing(t)
    ensures r == Fail(MalformedTransaction(MissingTimestamp, None)) <==>
      !TxIdMissing(t) && t.timestamp == None
    ensures r == Fail(MalformedTransaction(MissingRequest, None)) <==>
      !TxIdMissing(t) && t.timestamp != None && t.request == None
    ensures r.Fail? && r.error.message == InvalidRequest <==>
      !TxIdMissing(t) && t.timestamp != None && t.request != None && sanitizeRequest(t.request.value).Fail?
    ensures r.Fail? && r.error.message == InvalidRequest ==>
      r.error.cause == Some(sanitizeRequest(t.request.value).error)
    ensures r == Pass <==>
      !TxIdMissing(t) && t.timestamp != None && t.request != None && sanitizeRequest(t.request.value) == Pass
  {
    if TxIdMissing(t) then
      Fail(MalformedTransaction(MissingTxId, None))
    else if t.timestamp == None then
      Fail(MalformedTransaction(MissingTimestamp, None))
    else if t.request == None then
      Fail(MalformedTransaction(MissingRequest, None))
    else
      match sanitizeRequest(t.request.value)
      case Pass => Pass
      case Fail(e) => Fail(MalformedTransaction(InvalidRequest, Some(e)))
  }

  /**
   * When several fields are missing, the error names the first of txid,
   * timestamp, request, whatever the request's own check would say.
   */
  lemma SanitizeReportsFirstMissingField<R, E>(t: IDTransaction<R>, check1: R -> Outcome<E>, check2: R -> Outcome<E>)
    requires TxIdMissing(t) || t.timestamp == None || t.request == None
    ensures Sanitize(t, check1) == Sanitize(t, check2)
    ensures Sanitize(t, check1).Fail? && Sanitize(t, check1).error.cause == None
  {
  }
}
