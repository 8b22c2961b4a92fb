/** Model of pkg/sys/varz.go: `Varz` and `VarzPing`. */
module SysVarz {
  import opened SysApi
  import opened Endpoints

  lemma VarzSubject(id: string)
    ensures Sprintf(SrvVarzSubj, id) == ServerSubjectPrefix + id + ".VARZ"
  {
    assert SrvVarzSubj == ServerSubjectPrefix + "%s." + "VARZ";
    ServerSubjectFormat("VARZ", id);
  }

  /**
    `Varz(id, opts)`, given the marshalled options: no id check, so the
    request goes out for every id, to the server's VARZ subject with the
    client's timeout; every request error, `ErrNoResponders` included, is
    returned unchanged, and the reply is decoded.
   */
  function Varz<T>(c: ClientConfig, id: string, payload: Result<Bytes>,
                   conn: Request -> ReqOutcome, decode: Bytes -> Result<T>): (x: Exchange<T>)
    ensures payload.Failure? ==> x == Exchange(None, Failure(payload.error))
    ensures payload.Success? ==>
      && x.sent == Some(Request(ServerSubjectPrefix + id + ".VARZ", payload.value, c.timeout))
      && Settled(x, conn, decode, false, id)
  {
    if payload.Failure? then Exchange(None, Failure(payload.error))
    else
      VarzSubject(id);
      RequestAndDecode(Request(Sprintf(SrvVarzSubj, id), payload.value, c.timeout), conn, decode, false, id)
  }

  /**
    Unlike the other wrappers, `Varz` sends a request even for an empty id
    (to "$SYS.REQ.SERVER..VARZ") and hands `ErrNoResponders` back as it is.
   */
  lemma VarzDiffers<T>(c: ClientConfig, payload: Bytes, conn: Request -> ReqOutcome, decode: Bytes -> Result<T>)
    requires conn(Request("$SYS.REQ.SERVER..VARZ", payload, c.timeout)) == Failed(NoResponders)
    ensures Varz(c, "", Success(payload), conn, decode) ==
      Exchange(Some(Request("$SYS.REQ.SERVER..VARZ", payload, c.timeout)), Failure(NoResponders))
  {
    assert ServerSubjectPrefix + "" + ".VARZ" == "$SYS.REQ.SERVER..VARZ";
  }

  /** `VarzPing(opts)`: `RequestMany` on the VARZ subject of "PING", replies decoded in order. */
  method VarzPing<T>(sys: System, payload: Result<Bytes>, env: Transport, decode: Bytes -> Result<T>)
    returns (out: Waited<Result<seq<T>>>)
    ensures PingSettled(sys.opts.Config(), ServerSubjectPrefix + "PING" + ".VARZ", payload, env, decode, out)
  {
    var subject := Sprintf(SrvVarzSubj, "PING");
    VarzSubject("PING");
    out := PingAndDecode(sys, subject, payload, env, decode);
  }
}
