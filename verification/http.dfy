/** The parts of an HTTP request and response that the two handlers look at. */
module Http {
  import opened Wrappers

  /** The request methods the handlers tell apart; Other is every other method. */
  datatype Method = Get | Post | Delete | Other

  /**
   * A request: its method (verb), the path of its URI, the query string of its
   * URI when it has one (`/?abc` has query "abc", `/?` has query ""), and
   * its body when it has one.
   */
  datatype Request = Request(verb: Method, path: string, query: Option<string>, body: Option<string>)

  const StatusOk: int := 200
  const StatusCreated: int := 201
  const StatusTemporaryRedirect: int := 307
  const StatusNotFound: int := 404
  const StatusMethodNotAllowed: int := 405
}
