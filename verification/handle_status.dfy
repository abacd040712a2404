/** The numeric-code to HTTP-status lookup shared by every controller. */
module HandleStatus {

  /** The Spring HttpStatus constants the lookup can produce. */
  datatype HttpStatus =
    | Ok | Created | NoContent
    | BadRequest | Unauthorized | Forbidden | NotFound | Conflict
    | InternalServerError

  /** The status code RFC 9110 assigns to each status (HttpStatus.value()). */
  function Value(s: HttpStatus): int
  {
    match s
    case Ok => 200
    case Created => 201
    case NoContent => 204
    case BadRequest => 400
    case Unauthorized => 401
    case Forbidden => 403
    case NotFound => 404
    case Conflict => 409
    case InternalServerError => 500
  }

  /** The eight codes the lookup recognises. */
  predicate Recognised(code: int)
  {
    code in {200, 201, 204, 400, 401, 403, 404, 409}
  }

  /**
   * A recognised code maps to the status carrying that very code; every
   * other integer falls through to INTERNAL_SERVER_ERROR.
   */
  function GetStatus(code: int): (s: HttpStatus)
    ensures Recognised(code) ==> Value(s) == code
    ensures Recognised(code) <==> s != InternalServerError
  {
    match code
    case 200 => Ok
    case 201 => Created
    case 204 => NoContent
    case 400 => BadRequest
    case 401 => Unauthorized
    case 403 => Forbidden
    case 404 => NotFound
    case 409 => Conflict
    case _ => InternalServerError
  }

  /** The lookup inverts Value on every status, the default included (500 is not recognised). */
  lemma GetStatusInvertsValue(s: HttpStatus)
    ensures GetStatus(Value(s)) == s
  {
  }

  /** The success codes of the table. */
  lemma SuccessCodes()
    ensures GetStatus(200) == Ok && GetStatus(201) == Created && GetStatus(204) == NoContent
  {
  }

  /** The client-error codes of the table. */
  lemma ClientErrorCodes()
    ensures GetStatus(400) == BadRequest && GetStatus(401) == Unauthorized && GetStatus(403) == Forbidden
    ensures GetStatus(404) == NotFound && GetStatus(409) == Conflict
  {
  }

  /** Anything outside the eight codes, 500, 999 and -1 among them, is a server error. */
  lemma UnknownCodesAreServerErrors(code: int)
    requires !Recognised(code)
    ensures GetStatus(code) == InternalServerError
  {
  }

  /** Distinct recognised codes never share a status. */
  lemma RecognisedCodesAreDistinguished(c1: int, c2: int)
    requires Recognised(c1) && Recognised(c2) && c1 != c2
    ensures GetStatus(c1) != GetStatus(c2)
  {
  }

  /** The codes the services emit (200, 201, 204, 404) never reach the default branch. */
  lemma ServiceCodesAreRecognised(code: int)
    requires code in {200, 201, 204, 404}
    ensures GetStatus(code) != InternalServerError
    ensures Value(GetStatus(code)) == code
  {
  }
}
