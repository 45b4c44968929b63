/** A browser `fetch` seen from the page: a request and what came back. */
module Http {
  datatype HttpMethod = GET | POST | PUT | DELETE | PATCH | HEAD | OPTIONS

  /** A response with `res.ok` true, one with `res.ok` false, or a thrown error (network failure). */
  datatype FetchOutcome = Ok | NotOk | Threw
}
