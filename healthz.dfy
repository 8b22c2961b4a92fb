/**
  Model of pkg/sys/healthz.go: the `HealthStatus` text codec and the
  `Healthz` / `HealthzPing` wrappers.
 */
module SysHealthz {
  import opened SysApi
  import opened Endpoints

  /** `HealthStatus` is a Go `int`; the three named values follow `iota`. */
  type HealthStatus = int

  const StatusOK: HealthStatus := 0
  const StatusUnavailable: HealthStatus := 1
  const StatusError: HealthStatus := 2

  predicate KnownStatus(hs: HealthStatus) {
    hs == StatusOK || hs == StatusUnavailable || hs == StatusError
  }

  /** The three texts `UnmarshalJSON` accepts. */
  predicate AcceptedText(data: Bytes) {
    data == JsonString("ok") || data == JsonString("na") || data == JsonString("error")
  }

  /** What `UnmarshalJSON` stores for `data`, or the error it returns instead. */
  function ParseHealthStatus(data: Bytes): (r: Result<HealthStatus>)
    ensures r.Success? <==> AcceptedText(data)
    ensures r.Success? ==> KnownStatus(r.value)
    ensures r.Failure? ==> r.error == CannotUnmarshal(data)
  {
    if data == JsonString("ok") then Success(StatusOK)
    else if data == JsonString("na") then Success(StatusUnavailable)
    else if data == JsonString("error") then Success(StatusError)
    else Failure(CannotUnmarshal(data))
  }

  /**
    `MarshalJSON`: the JSON string of the status' name, or an error for any
    other value. The error prints the value with `%v`, that is through
    `String`, so it reads the same for every unknown value.
   */
  function MarshalJSON(hs: HealthStatus): (r: Result<Bytes>)
    ensures r.Success? <==> KnownStatus(hs)
    ensures r.Failure? ==> r.error == UnknownHealthStatus("unknown health status")
    ensures r.Success? ==> AcceptedText(r.value)
  {
    if hs == StatusOK then Success(JsonString("ok"))
    else if hs == StatusUnavailable then Success(JsonString("na"))
    else if hs == StatusError then Success(JsonString("error"))
    else Failure(UnknownHealthStatus(String(hs)))
  }

  /** `String`: the marshalled text without its quotes, or a fixed text for other values. */
  function String(hs: HealthStatus): (s: string)
    ensures KnownStatus(hs) <==> AcceptedText(JsonString(s))
    ensures !KnownStatus(hs) ==> s == "unknown health status"
  {
    if hs == StatusOK then "ok"
    else if hs == StatusUnavailable then "na"
    else if hs == StatusError then "error"
    else "unknown health status"
  }

  /** For a known status, `String` is the marshalled text without its quotes. */
  lemma StringIsMarshalledName(hs: HealthStatus)
    requires KnownStatus(hs)
    ensures MarshalJSON(hs) == Success(JsonString(String(hs)))
  {
  }

  /** Marshalling cannot tell two unknown values apart: both give the same error. */
  lemma UnknownStatusesShareError(a: HealthStatus, b: HealthStatus)
    requires !KnownStatus(a) && !KnownStatus(b)
    ensures MarshalJSON(a) == MarshalJSON(b)
  {
  }

  /** The three texts are pairwise different, so the three statuses parse apart. */
  lemma AcceptedTextsDiffer()
    ensures JsonString("ok") != JsonString("na")
    ensures JsonString("ok") != JsonString("error")
    ensures JsonString("na") != JsonString("error")
  {
    assert JsonString("ok")[1] != JsonString("na")[1];
    assert |JsonString("ok")| != |JsonString("error")|;
    assert |JsonString("na")| != |JsonString("error")|;
  }

  /** Decoding what was encoded gives the status back. */
  lemma MarshalThenParse(hs: HealthStatus)
    requires KnownStatus(hs)
    ensures ParseHealthStatus(MarshalJSON(hs).value) == Success(hs)
  {
    AcceptedTextsDiffer();
  }

  /** Encoding what was decoded gives the text back. */
  lemma ParseThenMarshal(data: Bytes)
    requires AcceptedText(data)
    ensures MarshalJSON(ParseHealthStatus(data).value) == Success(data)
  {
    AcceptedTextsDiffer();
  }

  /** A `HealthStatus` variable, which `UnmarshalJSON` writes through a pointer. */
  class HealthStatusVar {
    var value: HealthStatus

    constructor (v: HealthStatus)
      ensures value == v
    {
      value := v;
    }

    /** Stores the parsed status; on an error the variable keeps its value. */
    method UnmarshalJSON(data: Bytes) returns (err: Option<Error>)
      modifies this
      ensures err.None? <==> AcceptedText(data)
      ensures err.None? ==> value == ParseHealthStatus(data).value
      ensures err.Some? ==> err.value == CannotUnmarshal(data) && value == old(value)
    {
      if data == JsonString("ok") {
        value := StatusOK;
      } else if data == JsonString("na") {
        value := StatusUnavailable;
      } else if data == JsonString("error") {
        value := StatusError;
      } else {
        return Some(CannotUnmarshal(data));
      }
      err := None;
    }
  }

  lemma HealthzSubject(id: string)
    ensures Sprintf(SrvHealthzSubj, id) == ServerSubjectPrefix + id + ".HEALTHZ"
  {
    assert SrvHealthzSubj == ServerSubjectPrefix + "%s." + "HEALTHZ";
    ServerSubjectFormat("HEALTHZ", id);
  }

  /**
    `Healthz(id, opts)`, given the marshalled options: an empty id is a
    validation error and nothing is sent; otherwise one request goes to the
    server's HEALTHZ subject with the client's timeout, `ErrNoResponders`
    becomes `ErrInvalidServerID`, and the reply is decoded.
   */
  function Healthz<T>(c: ClientConfig, id: string, payload: Result<Bytes>,
                      conn: Request -> ReqOutcome, decode: Bytes -> Result<T>): (x: Exchange<T>)
    ensures id == "" ==> x == Exchange(None, Failure(Validation(ServerIdEmpty)))
    ensures id != "" && payload.Failure? ==> x == Exchange(None, Failure(payload.error))
    ensures id != "" && payload.Success? ==>
      && x.sent == Some(Request(ServerSubjectPrefix + id + ".HEALTHZ", payload.value, c.timeout))
      && Settled(x, conn, decode, true, id)
  {
    if id == "" then Exchange(None, Failure(Validation(ServerIdEmpty)))
    else if payload.Failure? then Exchange(None, Failure(payload.error))
    else
      HealthzSubject(id);
      RequestAndDecode(Request(Sprintf(SrvHealthzSubj, id), payload.value, c.timeout), conn, decode, true, id)
  }

  /** `HealthzPing(opts)`: `RequestMany` on the HEALTHZ subject of "PING", replies decoded in order. */
  method HealthzPing<T>(sys: System, payload: Result<Bytes>, env: Transport, decode: Bytes -> Result<T>)
    returns (out: Waited<Result<seq<T>>>)
    ensures PingSettled(sys.opts.Config(), ServerSubjectPrefix + "PING" + ".HEALTHZ", payload, env, decode, out)
  {
    var subject := Sprintf(SrvHealthzSubj, "PING");
    HealthzSubject("PING");
    out := PingAndDecode(sys, subject, payload, env, decode);
  }
}
