/** Model of pkg/sys/subsz_server.go: `ServerSubsz` and `ServerSubszPing`. */
module SysSubsz {
  import opened SysApi
  import opened Endpoints

  lemma SubszSubject(id: string)
    ensures Sprintf(SrvSubszSubj, id) == ServerSubjectPrefix + id + ".SUBSZ"
  {
    assert SrvSubszSubj == ServerSubjectPrefix + "%s." + "SUBSZ";
    ServerSubjectFormat("SUBSZ", id);
  }

  /**
    `ServerSubsz(id, opts)`, given the marshalled options: an empty id is a
    validation error and nothing is sent; otherwise one request goes to the
    server's SUBSZ subject with the fixed `DefaultRequestTimeout`,
    `ErrNoResponders` becomes `ErrInvalidServerID`, and the reply is decoded.
   */
  function ServerSubsz<T>(id: string, payload: Result<Bytes>,
                          conn: Request -> ReqOutcome, decode: Bytes -> Result<T>): (x: Exchange<T>)
    ensures id == "" ==> x == Exchange(None, Failure(Validation(ServerIdEmpty)))
    ensures id != "" && payload.Failure? ==> x == Exchange(None, Failure(payload.error))
    ensures id != "" && payload.Success? ==>
      && x.sent == Some(Request(ServerSubjectPrefix + id + ".SUBSZ", payload.value, DefaultRequestTimeout))
      && Settled(x, conn, decode, true, id)
  {
    if id == "" then Exchange(None, Failure(Validation(ServerIdEmpty)))
    else if payload.Failure? then Exchange(None, Failure(payload.error))
    else
      SubszSubject(id);
      RequestAndDecode(Request(Sprintf(SrvSubszSubj, id), payload.value, DefaultRequestTimeout), conn, decode, true, id)
  }

  /** `ServerSubszPing(opts)`: `RequestMany` on the SUBSZ subject of "PING", replies decoded in order. */
  method ServerSubszPing<T>(sys: System, payload: Result<Bytes>, env: Transport, decode: Bytes -> Result<T>)
    returns (out: Waited<Result<seq<T>>>)
    ensures PingSettled(sys.opts.Config(), ServerSubjectPrefix + "PING" + ".SUBSZ", payload, env, decode, out)
  {
    var subject := Sprintf(SrvSubszSubj, "PING");
    SubszSubject("PING");
    out := PingAndDecode(sys, subject, payload, env, decode);
  }
}
