/**
  The outcomes of the link routes and of the redirect route, one constructor per
  distinct response the handlers send, with the status code each one carries.
*/
module Http {
  import opened LinkStore

  datatype Response =
    | Created(link: Link)           // 201, the new link
    | Details(link: Link)           // 200, one link with all its fields
    | Listing(links: seq<Link>)     // 200, all links
    | NoContent                     // 204, after a delete
    | Redirect(url: string)         // 302 to `url`
    | InvalidUrl                    // 400, the URL is missing or not a URL
    | InvalidCode                   // 400, the custom code has the wrong format
    | NotFound                      // 404, unknown or reserved code
    | CodeTaken                     // 409, the custom code is already in use
    | GenerationFailed              // 500, ten generated codes all collided
    | InvalidTarget(url: string)    // 500, the stored target lacks a scheme
  {
    function Status(): int {
      match this
      case Created(_) => 201
      case Details(_) => 200
      case Listing(_) => 200
      case NoContent => 204
      case Redirect(_) => 302
      case InvalidUrl => 400
      case InvalidCode => 400
      case NotFound => 404
      case CodeTaken => 409
      case GenerationFailed => 500
      case InvalidTarget(_) => 500
    }

    /** The success responses: those that carry data or confirm a change. */
    predicate IsSuccess() {
      Created? || Details? || Listing? || NoContent?
    }

    /** The responses that blame the request rather than the server. */
    predicate IsClientError() {
      InvalidUrl? || InvalidCode? || NotFound? || CodeTaken?
    }
  }

  /** The status code sorts the responses: 2xx exactly for success, 302 exactly for a
      redirect, 4xx exactly for a request at fault, and 500 for the two server-side outcomes. */
  lemma StatusClasses(r: Response)
    ensures 200 <= r.Status() < 300 <==> r.IsSuccess()
    ensures r.Status() == 302 <==> r.Redirect?
    ensures 400 <= r.Status() < 500 <==> r.IsClientError()
    ensures r.Status() == 500 <==> r.GenerationFailed? || r.InvalidTarget?
    ensures r.Status() == 201 <==> r.Created?
    ensures r.Status() == 404 <==> r.NotFound?
  {
  }
}
