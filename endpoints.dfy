/**
  The shape every per-endpoint wrapper of pkg/sys shares: a point-to-point
  request whose error is possibly translated and whose reply is decoded, and
  a `PING` broadcast through `RequestMany` whose replies are decoded one by
  one, in order, stopping at the first failure.

  `conn.Request` is an abstract function from the request to its outcome and
  `json.Unmarshal` into a response record is an abstract `decode`.
 */
module Endpoints {
  import opened SysApi

  /** What `conn.Request(subject, payload, timeout)` is asked to send. */
  datatype Request = Request(subject: string, payload: Bytes, timeout: Duration)

  /** What `conn.Request` comes back with: a reply's data or an error. */
  datatype ReqOutcome = Answered(data: Bytes) | Failed(err: Error)

  /** A wrapper's effect: the request it sent, if any, and what it returned. */
  datatype Exchange<T> = Exchange(sent: Option<Request>, result: Result<T>)

  /**
    How a wrapper treats the outcome of its one request: a reply is decoded;
    `nats.ErrNoResponders` becomes `ErrInvalidServerID` naming `id` when
    `mapsNoResponders`; every other error is returned unchanged.
   */
  ghost predicate Settled<T>(x: Exchange<T>, conn: Request -> ReqOutcome, decode: Bytes -> Result<T>,
                             mapsNoResponders: bool, id: string)
  {
    && x.sent.Some?
    && match conn(x.sent.value)
       case Answered(d) => x.result == decode(d)
       case Failed(e) =>
         x.result == Failure(if mapsNoResponders && e == NoResponders then InvalidServerID(id) else e)
  }

  /** Sends `req`, then decodes the reply or translates the error. */
  function RequestAndDecode<T>(req: Request, conn: Request -> ReqOutcome, decode: Bytes -> Result<T>,
                               mapsNoResponders: bool, id: string): (x: Exchange<T>)
    ensures x.sent == Some(req)
    ensures Settled(x, conn, decode, mapsNoResponders, id)
    ensures x.result.Success? <==> conn(req).Answered? && decode(conn(req).data).Success?
  {
    match conn(req)
    case Answered(d) => Exchange(Some(req), decode(d))
    case Failed(e) =>
      Exchange(Some(req), Failure(if mapsNoResponders && e == NoResponders then InvalidServerID(id) else e))
  }

  /**
    With the translation on, a wrapper never returns `ErrNoResponders` from
    the request: it names the server instead. Without it, the error comes
    back as it is.
   */
  lemma NoRespondersTranslation<T>(x: Exchange<T>, conn: Request -> ReqOutcome, decode: Bytes -> Result<T>,
                                  mapsNoResponders: bool, id: string)
    requires Settled(x, conn, decode, mapsNoResponders, id)
    requires conn(x.sent.value) == Failed(NoResponders)
    ensures mapsNoResponders ==> x.result == Failure(InvalidServerID(id))
    ensures !mapsNoResponders ==> x.result == Failure(NoResponders)
  {
  }

  /**
    `r` is the result of decoding every reply in order and stopping at the
    first failure: one decoded record per reply, in reply order, or the error
    of the first reply that does not decode.
   */
  ghost predicate DecodedInOrder<T>(msgs: seq<Msg>, decode: Bytes -> Result<T>, r: Result<seq<T>>)
  {
    match r
    case Success(v) =>
      |v| == |msgs| && forall i :: 0 <= i < |msgs| ==> decode(msgs[i].data) == Success(v[i])
    case Failure(e) =>
      exists k :: 0 <= k < |msgs| && decode(msgs[k].data) == Failure(e) &&
        forall j :: 0 <= j < k ==> decode(msgs[j].data).Success?
  }

  /** `DecodedInOrder` leaves no choice: it describes a single result. */
  lemma DecodedInOrderUnique<T>(msgs: seq<Msg>, decode: Bytes -> Result<T>, r1: Result<seq<T>>, r2: Result<seq<T>>)
    requires DecodedInOrder(msgs, decode, r1) && DecodedInOrder(msgs, decode, r2)
    ensures r1 == r2
  {
    if r1.Success? && r2.Success? {
      assert |r1.value| == |r2.value|;
      forall i | 0 <= i < |msgs| ensures r1.value[i] == r2.value[i] {
        assert decode(msgs[i].data) == Success(r1.value[i]);
      }
      assert r1.value == r2.value;
    } else if r1.Failure? && r2.Failure? {
      var k1 :| 0 <= k1 < |msgs| && decode(msgs[k1].data) == Failure(r1.error) &&
        forall j :: 0 <= j < k1 ==> decode(msgs[j].data).Success?;
      var k2 :| 0 <= k2 < |msgs| && decode(msgs[k2].data) == Failure(r2.error) &&
        forall j :: 0 <= j < k2 ==> decode(msgs[j].data).Success?;
      assert k1 == k2;
    }
  }

  /**
    The loop of every `…Ping` wrapper: each reply is unmarshalled into a new
    record and appended; the first failure returns nil and that error.
   */
  method DecodeReplies<T>(msgs: seq<Msg>, decode: Bytes -> Result<T>) returns (r: Result<seq<T>>)
    ensures DecodedInOrder(msgs, decode, r)
  {
    var decoded: seq<T> := [];
    for i := 0 to |msgs|
      invariant |decoded| == i
      invariant forall j :: 0 <= j < i ==> decode(msgs[j].data) == Success(decoded[j])
    {
      var one := decode(msgs[i].data);
      if one.Failure? {
        return Failure(one.error);
      }
      decoded := decoded + [one.value];
    }
    r := Success(decoded);
  }

  /**
    What a `…Ping` wrapper promises for a marshalled payload, a client
    configuration and a transport: a marshalling error is returned as it
    is; otherwise `RequestMany` runs on `subject` with no per-call option,
    its error is returned unchanged, and its replies are decoded in order.
   */
  ghost predicate PingSettled<T>(c: ClientConfig, subject: string, payload: Result<Bytes>, env: Transport,
                                 decode: Bytes -> Result<T>, out: Waited<Result<seq<T>>>)
  {
    if payload.Failure? then out == Returned(Failure(payload.error))
    else
      match RequestManyOutcome(c, subject, [], env)
      case Blocked => out == Blocked
      case Returned(Failure(e)) => out == Returned(Failure(e))
      case Returned(Success(msgs)) => out.Returned? && DecodedInOrder(msgs, decode, out.result)
  }

  /** `RequestMany(subject, payload)`, then the decode loop. */
  method PingAndDecode<T>(sys: System, subject: string, payload: Result<Bytes>, env: Transport,
                          decode: Bytes -> Result<T>) returns (out: Waited<Result<seq<T>>>)
    ensures PingSettled(sys.opts.Config(), subject, payload, env, decode, out)
  {
    if payload.Failure? {
      return Returned(Failure(payload.error));
    }
    var resp, _, _, _ := sys.RequestMany(subject, payload.value, [], env);
    if resp.Blocked? {
      return Blocked;
    }
    if resp.result.Failure? {
      return Returned(Failure(resp.result.error));
    }
    var decoded := DecodeReplies(resp.result.value, decode);
    out := Returned(decoded);
  }

  /**
    A `…Ping` wrapper succeeds with one record per reply that `RequestMany`
    kept, so never with more records than replies arrived; and it succeeds
    only once some reply has arrived, though possibly with no record.
   */
  lemma PingResultBound<T>(c: ClientConfig, subject: string, payload: Result<Bytes>, env: Transport,
                           decode: Bytes -> Result<T>, out: Waited<Result<seq<T>>>)
    requires ValidClientConfig(c)
    requires PingSettled(c, subject, payload, env, decode, out)
    requires out.Returned? && out.result.Success?
    ensures |out.result.value| <= |RepliesOf(env.events)|
    ensures |RepliesOf(env.events)| >= 1
  {
    RequestManyGuarantees(c, subject, [], env);
  }
}
