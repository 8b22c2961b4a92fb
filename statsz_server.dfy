/**
  Model of pkg/sys/statsz_server.go: `ServerStatsz` and `ServerStatszPing`.
  The template `srvStatszSubj` is not part of this model, so both take it
  as a parameter: any format whose only verb is one `%s`.
 */
module SysStatsz {
  import opened SysApi
  import opened Endpoints

  /**
    `ServerStatsz(id, opts)`, given the marshalled options: an empty id is a
    validation error and nothing is sent; otherwise one request goes to the
    template formatted with the id, with the client's timeout,
    `ErrNoResponders` becomes `ErrInvalidServerID`, and the reply is decoded.
   */
  function ServerStatsz<T>(c: ClientConfig, srvStatszSubj: string, id: string, payload: Result<Bytes>,
                           conn: Request -> ReqOutcome, decode: Bytes -> Result<T>): (x: Exchange<T>)
    requires OneStringVerb(srvStatszSubj)
    ensures id == "" ==> x == Exchange(None, Failure(Validation(ServerIdEmpty)))
    ensures id != "" && payload.Failure? ==> x == Exchange(None, Failure(payload.error))
    ensures id != "" && payload.Success? ==>
      && x.sent == Some(Request(Sprintf(srvStatszSubj, id), payload.value, c.timeout))
      && Settled(x, conn, decode, true, id)
  {
    if id == "" then Exchange(None, Failure(Validation(ServerIdEmpty)))
    else if payload.Failure? then Exchange(None, Failure(payload.error))
    else RequestAndDecode(Request(Sprintf(srvStatszSubj, id), payload.value, c.timeout), conn, decode, true, id)
  }

  /** `ServerStatszPing(opts)`: `RequestMany` on the template formatted with "PING", replies decoded in order. */
  method ServerStatszPing<T>(sys: System, srvStatszSubj: string, payload: Result<Bytes>, env: Transport,
                             decode: Bytes -> Result<T>)
    returns (out: Waited<Result<seq<T>>>)
    requires OneStringVerb(srvStatszSubj)
    ensures PingSettled(sys.opts.Config(), Sprintf(srvStatszSubj, "PING"), payload, env, decode, out)
  {
    out := PingAndDecode(sys, Sprintf(srvStatszSubj, "PING"), payload, env, decode);
  }
}
