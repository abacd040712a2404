/** What every controller endpoint does with a service response. */
module Controller {
  import HandleStatus
  import Service

  /**
   * The HTTP status an endpoint answers with: getStatus of the response's
   * "success" code. The services' codes all sit in the table, so the
   * server-error default is never reached and the status carries the same code.
   */
  function StatusOf<E>(r: Service.Response<E>): (s: HandleStatus.HttpStatus)
    ensures s != HandleStatus.InternalServerError
    ensures HandleStatus.Value(s) == r.Code()
    ensures r.Listed? || r.Ok? <==> s == HandleStatus.Ok
    ensures r.Created? <==> s == HandleStatus.Created
    ensures r.Deleted? <==> s == HandleStatus.NoContent
    ensures r.NotFound? <==> s == HandleStatus.NotFound
  {
    HandleStatus.GetStatus(r.Code())
  }
}
