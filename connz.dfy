/** Model of pkg/sys/connz.go: `Connz`, `ConnzPing` and the `ConnState` filter values. */
module SysConnz {
  import opened SysApi
  import opened Endpoints

  /** `ConnState` is a Go `int`; its three values follow `iota`. */
  type ConnState = int

  const ConnOpen: ConnState := 0
  const ConnClosed: ConnState := 1
  const ConnAll: ConnState := 2

  lemma ConnzSubject(id: string)
    ensures Sprintf(SrvConnzSubj, id) == ServerSubjectPrefix + id + ".CONNZ"
  {
    assert SrvConnzSubj == ServerSubjectPrefix + "%s." + "CONNZ";
    ServerSubjectFormat("CONNZ", id);
  }

  /**
    `Connz(id, opts)`, given the marshalled options: an empty id is a
    validation error and nothing is sent; otherwise one request goes to the
    server's CONNZ subject with the fixed `DefaultRequestTimeout` (the
    client's timeout plays no part), `ErrNoResponders` becomes
    `ErrInvalidServerID`, and the reply is decoded.
   */
  function Connz<T>(id: string, payload: Result<Bytes>,
                    conn: Request -> ReqOutcome, decode: Bytes -> Result<T>): (x: Exchange<T>)
    ensures id == "" ==> x == Exchange(None, Failure(Validation(ServerIdEmpty)))
    ensures id != "" && payload.Failure? ==> x == Exchange(None, Failure(payload.error))
    ensures id != "" && payload.Success? ==>
      && x.sent == Some(Request(ServerSubjectPrefix + id + ".CONNZ", payload.value, DefaultRequestTimeout))
      && Settled(x, conn, decode, true, id)
  {
    if id == "" then Exchange(None, Failure(Validation(ServerIdEmpty)))
    else if payload.Failure? then Exchange(None, Failure(payload.error))
    else
      ConnzSubject(id);
      RequestAndDecode(Request(Sprintf(SrvConnzSubj, id), payload.value, DefaultRequestTimeout), conn, decode, true, id)
  }

  /** `ConnzPing(opts)`: `RequestMany` on the CONNZ subject of "PING", replies decoded in order. */
  method ConnzPing<T>(sys: System, payload: Result<Bytes>, env: Transport, decode: Bytes -> Result<T>)
    returns (out: Waited<Result<seq<T>>>)
    ensures PingSettled(sys.opts.Config(), ServerSubjectPrefix + "PING" + ".CONNZ", payload, env, decode, out)
  {
    var subject := Sprintf(SrvConnzSubj, "PING");
    ConnzSubject("PING");
    out := PingAndDecode(sys, subject, payload, env, decode);
  }
}
