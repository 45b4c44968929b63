/**
 * `/api/setup/test-db-connection`: checks the connection settings, then
 * acquires and releases one client of a pool of its own, and ends that
 * pool on every path past the checks.
 */
module TestDbConnection {
  import opened Wrappers
  import opened JsValues
  import opened Http
  import opened PgServer

  datatype Json = MessageBody(message: string) | ErrorBody(message: string, error: string)

  datatype Response = Response(status: nat, body: Json)

  const NotAllowed := Response(405, MessageBody("Method not allowed"))
  const MissingParameters := Response(400, MessageBody("Missing required database connection parameters"))
  const Connected := Response(200, MessageBody("Connection successful"))

  function ConnectFailed(error: string): Response
  {
    Response(500, ErrorBody("Failed to connect to database", error))
  }

  /** `host`, `port`, `database` and `username` are all truthy; the password is not consulted. */
  predicate ParametersGiven(body: map<string, JsValue>)
  {
    Truthy(Get(body, "host")) && Truthy(Get(body, "port")) && Truthy(Get(body, "database")) && Truthy(Get(body, "username"))
  }

  /**
   * The handler; `server` is the database the settings point at, and
   * `reachable`/`connectError` say how connecting with them turns out.
   */
  method Handler(httpMethod: HttpMethod, body: map<string, JsValue>, server: Server, reachable: bool, connectError: string)
    returns (res: Response, pool: Option<Pool>)
    ensures res == Reply(httpMethod, body, reachable, connectError)
    ensures pool.Some? <==> httpMethod == POST && ParametersGiven(body)
    ensures pool.Some? ==> fresh(pool.value) && pool.value.server == server && pool.value.ended && pool.value.clients == 0
  {
    if httpMethod != POST {
      return NotAllowed, None;
    }
    if !ParametersGiven(body) {
      return MissingParameters, None;
    }
    var p := new Pool(server, reachable, connectError);
    var err := p.Connect();
    if err.None? {
      p.Release();
      res := Connected;
    } else {
      res := ConnectFailed(err.value);
    }
    p.End();
    pool := Some(p);
  }

  /** The reply the handler gives, as a function of the request and the connection's fate. */
  function Reply(httpMethod: HttpMethod, body: map<string, JsValue>, reachable: bool, connectError: string): (r: Response)
    ensures r.status == 200 <==> httpMethod == POST && ParametersGiven(body) && reachable
    ensures r.status == 400 <==> httpMethod == POST && !ParametersGiven(body)
  {
    if httpMethod != POST then NotAllowed
    else if !ParametersGiven(body) then MissingParameters
    else if reachable then Connected
    else ConnectFailed(connectError)
  }

  /** An empty or missing password does not stop the test. */
  lemma PasswordNotRequired(body: map<string, JsValue>, reachable: bool, connectError: string)
    requires ParametersGiven(body)
    ensures Reply(POST, body["password" := JStr("")], reachable, connectError) == Reply(POST, body, reachable, connectError)
  {
  }
}
