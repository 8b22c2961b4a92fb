/**
  Model of pkg/sys/api.go: the client options and their layering, the
  multi-reply collector `System.RequestMany`, the subject templates and the
  two sentinel errors.

  The connection handle (`nats.Conn`) is not modelled as code: what it does
  for one `RequestMany` call is an abstract `Transport` value (whether
  `Subscribe` and `PublishRequest` fail, and the sequence of deliveries the
  wait loop observes).
 */
module SysApi {

  /** A byte slice, viewed as its characters (`string(data)` in the source). */
  type Bytes = string

  /** `time.Duration`: a number of nanoseconds. */
  type Duration = int

  const Millisecond: Duration := 1_000_000
  const Second: Duration := 1_000 * Millisecond

  const DefaultRequestTimeout: Duration := 10 * Second
  const DefaultRequestInterval: Duration := 300 * Millisecond

  const SrvVarzSubj := "$SYS.REQ.SERVER.%s.VARZ"
  const SrvConnzSubj := "$SYS.REQ.SERVER.%s.CONNZ"
  const SrvSubszSubj := "$SYS.REQ.SERVER.%s.SUBSZ"
  const SrvHealthzSubj := "$SYS.REQ.SERVER.%s.HEALTHZ"

  /** The common head of every per-server subject template. */
  const ServerSubjectPrefix := "$SYS.REQ.SERVER."

  // The texts of the `ErrValidation` wrappers.
  const TimeoutNotPositive := "timeout has to be greater than 0"
  const IntervalNotPositive := "interval has to be greater than 0"
  const ServerCountNotPositive := "server count has to be greater than 0"
  const MaxWaitNotPositive := "max wait has to be greater than 0"
  const MaxIntervalNotPositive := "max interval has to be greater than 0"
  const CountNotPositive := "expected request count has to be greater than 0"
  const SubjectEmpty := "subject cannot be empty"
  const ServerIdEmpty := "server id cannot be empty"

  /**
    The errors the package returns. `Validation` and `InvalidServerID` wrap
    the sentinels `ErrValidation` and `ErrInvalidServerID`, so `errors.Is`
    against a sentinel is a constructor test. `NoResponders` is
    `nats.ErrNoResponders`; every other error of the NATS client is `Nats`,
    every error of `encoding/json` is `Json`. `UnknownHealthStatus` holds
    what `%v` prints for the status.
   */
  datatype Error =
    | Validation(detail: string)
    | InvalidServerID(id: string)
    | Unauthorized(subject: string)
    | NoResponders
    | Nats(code: int)
    | Json(code: int)
    | CannotUnmarshal(data: Bytes)
    | UnknownHealthStatus(shown: string)

  datatype Option<+T> = None | Some(value: T)

  /** A Go `(value, error)` pair in which exactly one side is meaningful. */
  datatype Result<+T> = Success(value: T) | Failure(error: Error)

  /** `jsonString`: the JSON text of a string that needs no escaping. */
  function JsonString(s: string): (r: string)
    ensures |r| == |s| + 2 && r[0] == '"' && r[|r| - 1] == '"'
    ensures r[1..|r| - 1] == s
  {
    "\"" + s + "\""
  }

  predicate NoPercent(s: string) {
    forall i :: 0 <= i < |s| ==> s[i] != '%'
  }

  /**
    `fmt.Sprintf(format, arg)` for a format whose only verb is one `%s`:
    the first `%s` is replaced by `arg`, the rest is copied.
   */
  function Sprintf(format: string, arg: string): string
  {
    if |format| < 2 then format
    else if format[0] == '%' && format[1] == 's' then arg + format[2..]
    else [format[0]] + Sprintf(format[1..], arg)
  }

  /** A format whose only verb is one `%s`: the only formats `Sprintf` models. */
  predicate OneStringVerb(format: string) {
    exists i :: 0 <= i < |format| - 1 && format[i] == '%' && format[i + 1] == 's' &&
      NoPercent(format[..i]) && NoPercent(format[i + 2..])
  }

  lemma {:induction false} SprintfSubstitutes(prefix: string, suffix: string, arg: string)
    requires NoPercent(prefix) && NoPercent(suffix)
    ensures Sprintf(prefix + "%s" + suffix, arg) == prefix + arg + suffix
  {
    var format := prefix + "%s" + suffix;
    if prefix == [] {
      assert format == "%s" + suffix;
      assert format[2..] == suffix;
    } else {
      assert format[0] == prefix[0];
      assert format[1..] == prefix[1..] + "%s" + suffix;
      SprintfSubstitutes(prefix[1..], suffix, arg);
      assert [prefix[0]] + (prefix[1..] + arg + suffix) == prefix + arg + suffix;
    }
  }

  /**
    Every `$SYS.REQ.SERVER.%s.<EP>` template, formatted with `id`, is the
    prefix, the id, a dot and the endpoint name.
   */
  lemma ServerSubjectFormat(endpoint: string, id: string)
    requires NoPercent(endpoint)
    ensures Sprintf(ServerSubjectPrefix + "%s." + endpoint, id) == ServerSubjectPrefix + id + "." + endpoint
  {
    assert NoPercent(ServerSubjectPrefix);
    assert NoPercent("." + endpoint) by {
      forall i | 0 <= i < |"." + endpoint| ensures ("." + endpoint)[i] != '%' {
        if i > 0 { assert ("." + endpoint)[i] == endpoint[i - 1]; }
      }
    }
    SprintfSubstitutes(ServerSubjectPrefix, "." + endpoint, id);
    assert ServerSubjectPrefix + "%s." + endpoint == ServerSubjectPrefix + "%s" + ("." + endpoint);
    assert ServerSubjectPrefix + id + ("." + endpoint) == ServerSubjectPrefix + id + "." + endpoint;
  }

  // ---------------------------------------------------------------------
  // Client options (`sysClientOpts`, `SysClientOpt`)
  // ---------------------------------------------------------------------

  /** The value of a `sysClientOpts` record. */
  datatype ClientConfig = ClientConfig(timeout: Duration, multiRequestInterval: Duration, serverCount: int)

  const DefaultClientConfig := ClientConfig(DefaultRequestTimeout, DefaultRequestInterval, -1)

  /** What every client configuration built by `NewSysClient` satisfies. */
  predicate ValidClientConfig(c: ClientConfig) {
    c.timeout > 0 && c.multiRequestInterval > 0 && (c.serverCount == -1 || c.serverCount > 0)
  }

  /** A `SysClientOpt` closure, by the arguments it captured. */
  datatype SysClientOpt =
    | SysRequestTimeout(timeout: Duration)
    | SysMultiRequestInterval(initialTimeout: Duration, interval: Duration)
    | ServerCount(count: int)

  /** The error a client option reports, whatever record it is applied to. */
  function SysClientOptError(opt: SysClientOpt): Option<Error>
  {
    match opt
    case SysRequestTimeout(t) => if t <= 0 then Some(Validation(TimeoutNotPositive)) else None
    case SysMultiRequestInterval(_, i) => if i <= 0 then Some(Validation(IntervalNotPositive)) else None
    case ServerCount(n) => if n <= 0 then Some(Validation(ServerCountNotPositive)) else None
  }

  /** Applying one client option to a record value. */
  function ApplySysClientOpt(opt: SysClientOpt, c: ClientConfig): (r: Result<ClientConfig>)
    ensures r.Failure? <==> SysClientOptError(opt).Some?
    ensures r.Failure? ==> r.error.Validation? && Some(r.error) == SysClientOptError(opt)
    ensures r.Success? && opt.SysRequestTimeout? ==> r.value == c.(timeout := opt.timeout)
    ensures r.Success? && opt.SysMultiRequestInterval? ==>
      r.value == c.(timeout := if opt.initialTimeout <= 0 then opt.interval else opt.initialTimeout,
                    multiRequestInterval := opt.interval)
    ensures r.Success? && opt.ServerCount? ==> r.value == c.(serverCount := opt.count)
    ensures r.Success? && ValidClientConfig(c) ==> ValidClientConfig(r.value)
  {
    match opt
    case SysRequestTimeout(t) =>
      if t <= 0 then Failure(Validation(TimeoutNotPositive)) else Success(c.(timeout := t))
    case SysMultiRequestInterval(initial, interval) =>
      if interval <= 0 then Failure(Validation(IntervalNotPositive))
      else
        var initial' := if initial <= 0 then interval else initial;
        Success(c.(timeout := initial', multiRequestInterval := interval))
    case ServerCount(n) =>
      if n <= 0 then Failure(Validation(ServerCountNotPositive)) else Success(c.(serverCount := n))
  }

  /** Applying client options in order, stopping at the first error. */
  function ApplySysClientOpts(c: ClientConfig, opts: seq<SysClientOpt>): Result<ClientConfig>
    decreases |opts|
  {
    if opts == [] then Success(c)
    else
      match ApplySysClientOpt(opts[0], c)
      case Failure(e) => Failure(e)
      case Success(c') => ApplySysClientOpts(c', opts[1..])
  }

  /** Index of the first option that reports an error (|opts| when none does). */
  function FirstSysClientOptError(opts: seq<SysClientOpt>): (k: nat)
    ensures k <= |opts|
    ensures forall j :: 0 <= j < k ==> SysClientOptError(opts[j]).None?
    ensures k < |opts| ==> SysClientOptError(opts[k]).Some?
  {
    if opts == [] then 0
    else if SysClientOptError(opts[0]).Some? then 0
    else 1 + FirstSysClientOptError(opts[1..])
  }

  /**
    Options are applied in order: the first option that reports an error
    decides the error, whatever the record holds, and an option list with
    no such option always succeeds.
   */
  lemma {:induction false} ApplySysClientOptsFirstError(c: ClientConfig, opts: seq<SysClientOpt>)
    ensures var k := FirstSysClientOptError(opts);
      ApplySysClientOpts(c, opts).Failure? <==> k < |opts|
    ensures var k := FirstSysClientOptError(opts);
      k < |opts| ==> Some(ApplySysClientOpts(c, opts).error) == SysClientOptError(opts[k])
    decreases |opts|
  {
    if opts != [] && SysClientOptError(opts[0]).None? {
      ApplySysClientOptsFirstError(ApplySysClientOpt(opts[0], c).value, opts[1..]);
    }
  }

  /** Layering: applying `a + b` is applying `a`, then `b` to its result. */
  lemma {:induction false} ApplySysClientOptsAppend(c: ClientConfig, a: seq<SysClientOpt>, b: seq<SysClientOpt>)
    ensures ApplySysClientOpts(c, a + b) ==
      match ApplySysClientOpts(c, a)
      case Success(c') => ApplySysClientOpts(c', b)
      case Failure(e) => Failure(e)
    decreases |a|
  {
    if a == [] {
      assert a + b == b;
    } else {
      assert (a + b)[0] == a[0];
      assert (a + b)[1..] == a[1..] + b;
      if ApplySysClientOpt(a[0], c).Success? {
        ApplySysClientOptsAppend(ApplySysClientOpt(a[0], c).value, a[1..], b);
      }
    }
  }

  /** Client options never break a valid record. */
  lemma {:induction false} ApplySysClientOptsValid(c: ClientConfig, opts: seq<SysClientOpt>)
    requires ValidClientConfig(c)
    ensures ApplySysClientOpts(c, opts).Success? ==> ValidClientConfig(ApplySysClientOpts(c, opts).value)
    decreases |opts|
  {
    if opts != [] && ApplySysClientOpt(opts[0], c).Success? {
      ApplySysClientOptsValid(ApplySysClientOpt(opts[0], c).value, opts[1..]);
    }
  }

  /** What `NewSysClient(nc, opts...)` builds: the defaults, then the options in order. */
  function NewClientConfig(opts: seq<SysClientOpt>): (r: Result<ClientConfig>)
    ensures r.Success? ==> ValidClientConfig(r.value)
    ensures r.Failure? <==> FirstSysClientOptError(opts) < |opts|
    ensures r.Failure? ==> Some(r.error) == SysClientOptError(opts[FirstSysClientOptError(opts)])
  {
    ApplySysClientOptsValid(DefaultClientConfig, opts);
    ApplySysClientOptsFirstError(DefaultClientConfig, opts);
    ApplySysClientOpts(DefaultClientConfig, opts)
  }

  /** The `sysClientOpts` record, which the option closures update in place. */
  class SysClientOpts {
    var timeout: Duration
    var multiRequestInterval: Duration
    var serverCount: int

    function Config(): ClientConfig
      reads this
    {
      ClientConfig(timeout, multiRequestInterval, serverCount)
    }

    constructor Defaults()
      ensures Config() == DefaultClientConfig
    {
      timeout := DefaultRequestTimeout;
      multiRequestInterval := DefaultRequestInterval;
      serverCount := -1;
    }

    /** Runs the closure `opt` on this record. */
    method Apply(opt: SysClientOpt) returns (err: Option<Error>)
      modifies this
      ensures err == SysClientOptError(opt)
      ensures err.Some? ==> Config() == old(Config())
      ensures err.None? ==> Config() == ApplySysClientOpt(opt, old(Config())).value
    {
      err := None;
      match opt
      case SysRequestTimeout(t) =>
        if t <= 0 {
          return Some(Validation(TimeoutNotPositive));
        }
        timeout := t;
      case SysMultiRequestInterval(initialTimeout, interval) =>
        if interval <= 0 {
          return Some(Validation(IntervalNotPositive));
        }
        if initialTimeout <= 0 {
          initialTimeout := interval;
        }
        timeout := initialTimeout;
        multiRequestInterval := interval;
      case ServerCount(count) =>
        if count <= 0 {
          return Some(Validation(ServerCountNotPositive));
        }
        serverCount := count;
    }
  }

  // ---------------------------------------------------------------------
  // Per-call options (`requestManyOpts`, `RequestManyOpt`)
  // ---------------------------------------------------------------------

  /** The value of a `requestManyOpts` record. */
  datatype RequestConfig = RequestConfig(maxWait: Duration, maxInterval: Duration, count: int)

  /** The per-call record starts from the client's record. */
  function RequestDefaults(c: ClientConfig): RequestConfig {
    RequestConfig(c.timeout, c.multiRequestInterval, c.serverCount)
  }

  predicate ValidRequestConfig(rc: RequestConfig) {
    rc.maxWait > 0 && rc.maxInterval > 0 && (rc.count == -1 || rc.count > 0)
  }

  /** A `RequestManyOpt` closure, by the argument it captured. */
  datatype RequestManyOpt =
    | WithRequestManyMaxWait(maxWait: Duration)
    | WithRequestManyMaxInterval(interval: Duration)
    | WithRequestManyCount(count: int)

  function RequestManyOptError(opt: RequestManyOpt): Option<Error>
  {
    match opt
    case WithRequestManyMaxWait(d) => if d <= 0 then Some(Validation(MaxWaitNotPositive)) else None
    case WithRequestManyMaxInterval(d) => if d <= 0 then Some(Validation(MaxIntervalNotPositive)) else None
    case WithRequestManyCount(n) => if n <= 0 then Some(Validation(CountNotPositive)) else None
  }

  function ApplyRequestManyOpt(opt: RequestManyOpt, rc: RequestConfig): (r: Result<RequestConfig>)
    ensures r.Failure? <==> RequestManyOptError(opt).Some?
    ensures r.Failure? ==> r.error.Validation? && Some(r.error) == RequestManyOptError(opt)
    ensures r.Success? && opt.WithRequestManyMaxWait? ==> r.value == rc.(maxWait := opt.maxWait)
    ensures r.Success? && opt.WithRequestManyMaxInterval? ==> r.value == rc.(maxInterval := opt.interval)
    ensures r.Success? && opt.WithRequestManyCount? ==> r.value == rc.(count := opt.count)
    ensures r.Success? && ValidRequestConfig(rc) ==> ValidRequestConfig(r.value)
  {
    match opt
    case WithRequestManyMaxWait(d) =>
      if d <= 0 then Failure(Validation(MaxWaitNotPositive)) else Success(rc.(maxWait := d))
    case WithRequestManyMaxInterval(d) =>
      if d <= 0 then Failure(Validation(MaxIntervalNotPositive)) else Success(rc.(maxInterval := d))
    case WithRequestManyCount(n) =>
      if n <= 0 then Failure(Validation(CountNotPositive)) else Success(rc.(count := n))
  }

  function ApplyRequestManyOpts(rc: RequestConfig, opts: seq<RequestManyOpt>): Result<RequestConfig>
    decreases |opts|
  {
    if opts == [] then Success(rc)
    else
      match ApplyRequestManyOpt(opts[0], rc)
      case Failure(e) => Failure(e)
      case Success(rc') => ApplyRequestManyOpts(rc', opts[1..])
  }

  /**
    The record `RequestMany` works with, when the options are valid: every
    per-call option overrides the client's value, and validity is kept, so
    the count is -1 or positive and the interval positive.
   */
  lemma {:induction false} ApplyRequestManyOptsValid(rc: RequestConfig, opts: seq<RequestManyOpt>)
    requires ValidRequestConfig(rc)
    ensures ApplyRequestManyOpts(rc, opts).Success? ==> ValidRequestConfig(ApplyRequestManyOpts(rc, opts).value)
    ensures ApplyRequestManyOpts(rc, opts).Failure? ==> ApplyRequestManyOpts(rc, opts).error.Validation?
    decreases |opts|
  {
    if opts != [] && ApplyRequestManyOpt(opts[0], rc).Success? {
      ApplyRequestManyOptsValid(ApplyRequestManyOpt(opts[0], rc).value, opts[1..]);
    }
  }

  /** The `requestManyOpts` record of one `RequestMany` call. */
  class RequestManyOpts {
    var maxWait: Duration
    var maxInterval: Duration
    var count: int

    function Config(): RequestConfig
      reads this
    {
      RequestConfig(maxWait, maxInterval, count)
    }

    constructor FromClient(c: ClientConfig)
      ensures Config() == RequestDefaults(c)
    {
      maxWait := c.timeout;
      maxInterval := c.multiRequestInterval;
      count := c.serverCount;
    }

    method Apply(opt: RequestManyOpt) returns (err: Option<Error>)
      modifies this
      ensures err == RequestManyOptError(opt)
      ensures err.Some? ==> Config() == old(Config())
      ensures err.None? ==> Config() == ApplyRequestManyOpt(opt, old(Config())).value
    {
      err := None;
      match opt
      case WithRequestManyMaxWait(d) =>
        if d <= 0 {
          return Some(Validation(MaxWaitNotPositive));
        }
        maxWait := d;
      case WithRequestManyMaxInterval(interval) =>
        if interval <= 0 {
          return Some(Validation(MaxIntervalNotPositive));
        }
        maxInterval := interval;
      case WithRequestManyCount(n) =>
        if n <= 0 {
          return Some(Validation(CountNotPositive));
        }
        count := n;
    }
  }

  // ---------------------------------------------------------------------
  // The collector
  // ---------------------------------------------------------------------

  /** A reply: its `Status` header ("" when absent) and its payload. */
  datatype Msg = Msg(status: string, data: Bytes)

  /**
    What happens during the wait, in order. `Arrive` is the subscription
    handler running for a reply: it re-arms the timer and then puts the reply
    on `msgsChan`. `Take` is the `select` taking the oldest reply off
    `msgsChan`; `TimerFired` is the `select` taking a value from `timer.C`.
    A trace may put either of the last two first whenever both are ready,
    as Go's `select` may.
   */
  datatype Event = Arrive(msg: Msg) | Take | TimerFired

  /**
    What the NATS connection does for one call: the outcome of `Subscribe`
    and of `PublishRequest`, and the events during the wait.
   */
  datatype Transport = Transport(subscribeErr: Option<Error>, publishErr: Option<Error>, events: seq<Event>)

  /**
    The state of the wait: the replies waiting on `msgsChan`, the replies
    kept in `res`, and whether the timer has been re-armed.
   */
  datatype Session = Session(queue: seq<Msg>, res: seq<Msg>, timerArmed: bool)

  /** `timer := time.NewTimer(maxWait)` followed by `timer.Stop()`: nothing queued or kept, timer stopped. */
  const InitialSession := Session([], [], false)

  /** Either the wait goes on in a new state, or the call returns. */
  datatype Step = Continue(session: Session) | Exit(result: Result<seq<Msg>>)

  /** The outcome of a blocking call: it returned, or it is still waiting. */
  datatype Waited<+R> = Returned(result: R) | Blocked

  const Unavailable := "503"

  /**
    One event of the wait. An arriving reply re-arms the timer (with
    `maxInterval`, when that is positive) and is queued. Taking a reply with
    status 503 ends the call with an error; any other reply taken is
    appended, and ends the call when the expected count is reached. A timer
    value ends the call with what was kept. An empty channel or a stopped
    timer gives the `select` nothing, so `Take` or `TimerFired` then changes
    nothing.
   */
  function StepSession(rc: RequestConfig, subject: string, s: Session, e: Event): (r: Step)
    ensures e.Arrive? ==>
      && r.Continue? && r.session.queue == s.queue + [e.msg] && r.session.res == s.res
      && (r.session.timerArmed <==> s.timerArmed || rc.maxInterval > 0)
    ensures e.Take? && s.queue == [] ==> r == Continue(s)
    ensures e.Take? && s.queue != [] && s.queue[0].status == Unavailable ==> r == Exit(Failure(Unauthorized(subject)))
    ensures e.Take? && s.queue != [] && s.queue[0].status != Unavailable ==>
      || r == Continue(Session(s.queue[1..], s.res + [s.queue[0]], s.timerArmed))
      || r == Exit(Success(s.res + [s.queue[0]]))
    ensures e.Take? && r.Exit? && r.result.Success? ==> rc.count != -1 && |r.result.value| == rc.count
    ensures e.TimerFired? ==> (if s.timerArmed then r == Exit(Success(s.res)) else r == Continue(s))
  {
    match e
    case Arrive(msg) =>
      Continue(Session(s.queue + [msg], s.res, s.timerArmed || rc.maxInterval > 0))
    case Take =>
      if s.queue == [] then Continue(s)
      else
        var msg := s.queue[0];
        if msg.status == Unavailable then Exit(Failure(Unauthorized(subject)))
        else
          var res := s.res + [msg];
          if rc.count != -1 && |res| == rc.count then Exit(Success(res))
          else Continue(Session(s.queue[1..], res, s.timerArmed))
    case TimerFired =>
      if s.timerArmed then Exit(Success(s.res)) else Continue(s)
  }

  /** The wait over a sequence of events; `Continue` when they run out before the call returns. */
  function Run(rc: RequestConfig, subject: string, s: Session, events: seq<Event>): Step
    decreases |events|
  {
    if events == [] then Continue(s)
    else
      match StepSession(rc, subject, s, events[0])
      case Exit(r) => Exit(r)
      case Continue(s') => Run(rc, subject, s', events[1..])
  }

  /** The replies that arrive among `events`, in arrival order. */
  function RepliesOf(events: seq<Event>): (msgs: seq<Msg>)
    ensures |msgs| <= |events|
  {
    if events == [] then []
    else if events[0].Arrive? then [events[0].msg] + RepliesOf(events[1..])
    else RepliesOf(events[1..])
  }

  predicate NoUnavailable(msgs: seq<Msg>) {
    forall i :: 0 <= i < |msgs| ==> msgs[i].status != Unavailable
  }

  /** Running over `a + b` is running over `a`, then over `b` from where `a` left off. */
  lemma {:induction false} RunAppend(rc: RequestConfig, subject: string, s: Session, a: seq<Event>, b: seq<Event>)
    ensures Run(rc, subject, s, a + b) ==
      match Run(rc, subject, s, a)
      case Continue(s') => Run(rc, subject, s', b)
      case Exit(r) => Exit(r)
    decreases |a|
  {
    if a == [] {
      assert a + b == b;
    } else {
      assert (a + b)[0] == a[0];
      assert (a + b)[1..] == a[1..] + b;
      var st := StepSession(rc, subject, s, a[0]);
      if st.Continue? {
        RunAppend(rc, subject, st.session, a[1..], b);
      }
    }
  }

  /** One event keeps `res` followed by the channel equal to what arrived, in order. */
  lemma StepKeepsDeliveryOrder(rc: RequestConfig, subject: string, s: Session, e: Event)
    requires NoUnavailable(s.res)
    ensures match StepSession(rc, subject, s, e)
      case Continue(s') =>
        s'.res + s'.queue == s.res + s.queue + RepliesOf([e]) && s.res <= s'.res && NoUnavailable(s'.res)
      case Exit(Success(r)) =>
        s.res <= r && r <= s.res + s.queue && NoUnavailable(r)
      case Exit(Failure(err)) => err == Unauthorized(subject)
  {
    assert RepliesOf([e]) == (if e.Arrive? then [e.msg] else []) by {
      assert [e][1..] == [];
    }
    if e.Take? && s.queue != [] && s.queue[0].status != Unavailable {
      var q := s.queue;
      assert s.res + [q[0]] + q[1..] == s.res + q by {
        assert [q[0]] + q[1..] == q;
      }
      assert NoUnavailable(s.res + [q[0]]) by {
        forall i | 0 <= i < |s.res + [q[0]]| ensures (s.res + [q[0]])[i].status != Unavailable {
          if i < |s.res| { assert (s.res + [q[0]])[i] == s.res[i]; }
        }
      }
      assert s.res + [q[0]] <= s.res + q;
    }
  }

  /**
    The kept replies only grow, keep arrival order, and never hold a 503
    reply: whatever the wait keeps or returns is the state it started from
    followed by a prefix of what was queued and what arrived.
   */
  lemma {:induction false} RunKeepsDeliveryOrder(rc: RequestConfig, subject: string, s: Session, events: seq<Event>)
    requires NoUnavailable(s.res)
    ensures match Run(rc, subject, s, events)
      case Continue(s') =>
        s'.res + s'.queue == s.res + s.queue + RepliesOf(events) && s.res <= s'.res && NoUnavailable(s'.res)
      case Exit(Success(r)) =>
        s.res <= r && r <= s.res + s.queue + RepliesOf(events) && NoUnavailable(r)
      case Exit(Failure(err)) => err == Unauthorized(subject)
    decreases |events|
  {
    if events == [] {
      assert s.res + s.queue + RepliesOf(events) == s.res + s.queue;
    } else {
      var e := events[0];
      var tail := RepliesOf(events[1..]);
      assert RepliesOf(events) == RepliesOf([e]) + tail by {
        assert [e][1..] == [];
      }
      StepKeepsDeliveryOrder(rc, subject, s, e);
      var all := s.res + s.queue + RepliesOf(events);
      match StepSession(rc, subject, s, e)
      case Exit(Success(r)) =>
        assert s.res + s.queue <= all;
      case Exit(Failure(_)) =>
      case Continue(s1) =>
        RunKeepsDeliveryOrder(rc, subject, s1, events[1..]);
        assert s1.res + s1.queue + tail == all;
    }
  }

  /**
    The state the wait keeps: the timer runs only once a reply has arrived,
    and the count still lies ahead.
   */
  predicate SessionInvariant(rc: RequestConfig, s: Session) {
    (s.timerArmed ==> |s.res| + |s.queue| >= 1) && (rc.count != -1 ==> |s.res| < rc.count)
  }

  /**
    The wait keeps `SessionInvariant`. So a call returns successfully only
    once some reply has arrived (though not necessarily been kept), and
    never with more than an expected count.
   */
  lemma {:induction false} RunKeepsInvariant(rc: RequestConfig, subject: string, s: Session, events: seq<Event>)
    requires SessionInvariant(rc, s)
    ensures Run(rc, subject, s, events).Continue? ==> SessionInvariant(rc, Run(rc, subject, s, events).session)
    ensures Run(rc, subject, s, events).Exit? && Run(rc, subject, s, events).result.Success? ==>
      |s.res| + |s.queue| + |RepliesOf(events)| >= 1
    ensures Run(rc, subject, s, events).Exit? && Run(rc, subject, s, events).result.Success? && rc.count != -1 ==>
      |Run(rc, subject, s, events).result.value| <= rc.count
    decreases |events|
  {
    if events != [] {
      var e := events[0];
      var st := StepSession(rc, subject, s, e);
      if st.Continue? {
        var s1 := st.session;
        RunKeepsInvariant(rc, subject, s1, events[1..]);
        if e.Arrive? {
          assert RepliesOf(events) == [e.msg] + RepliesOf(events[1..]);
        } else if e.Take? && s.queue != [] {
          assert |s1.res| + |s1.queue| == |s.res| + |s.queue|;
        }
      }
    }
  }

  /**
    With an expected count and no timer value, a successful result holds
    exactly `count` replies: the count is the only other way out.
   */
  lemma {:induction false} RunCountExact(rc: RequestConfig, subject: string, s: Session, events: seq<Event>)
    requires rc.count != -1 && SessionInvariant(rc, s)
    requires forall i :: 0 <= i < |events| ==> !events[i].TimerFired?
    ensures Run(rc, subject, s, events).Exit? && Run(rc, subject, s, events).result.Success? ==>
      |Run(rc, subject, s, events).result.value| == rc.count
    decreases |events|
  {
    if events != [] {
      var st := StepSession(rc, subject, s, events[0]);
      if st.Continue? {
        RunKeepsInvariant(rc, subject, s, [events[0]]);
        assert Run(rc, subject, s, [events[0]]) == st by {
          assert [events[0]][1..] == [];
        }
        RunCountExact(rc, subject, st.session, events[1..]);
      }
    }
  }

  /**
    `maxWait` is never consulted: the timer is stopped at creation and only
    an arriving reply re-arms it, so while no reply arrives nothing ends the
    call.
   */
  lemma {:induction false} NoReplyNeverReturns(rc: RequestConfig, subject: string, events: seq<Event>)
    requires forall i :: 0 <= i < |events| ==> !events[i].Arrive?
    ensures Run(rc, subject, InitialSession, events) == Continue(InitialSession)
    decreases |events|
  {
    if events != [] {
      NoReplyNeverReturns(rc, subject, events[1..]);
    }
  }

  /**
    The handler re-arms the timer before its reply reaches the channel, so
    the timer may win the `select` over a reply already waiting there: the
    call then succeeds with no reply at all.
   */
  lemma TimerCanBeatFirstReply(rc: RequestConfig, subject: string, m: Msg)
    requires ValidRequestConfig(rc)
    ensures Run(rc, subject, InitialSession, [Arrive(m), TimerFired]) == Exit(Success([]))
  {
    assert [Arrive(m), TimerFired][1..] == [TimerFired];
  }

  /**
    Taking a 503 reply ends the call with an error and no result, however
    many replies were kept before it and whatever would have followed.
   */
  lemma Unavailable503Aborts(rc: RequestConfig, subject: string, s: Session,
                             before: seq<Event>, m: Msg, after: seq<Event>)
    requires Run(rc, subject, s, before).Continue? && Run(rc, subject, s, before).session.queue == []
    requires m.status == Unavailable
    ensures Run(rc, subject, s, before + [Arrive(m), Take] + after) == Exit(Failure(Unauthorized(subject)))
  {
    RunAppend(rc, subject, s, before, [Arrive(m), Take] + after);
    assert before + [Arrive(m), Take] + after == before + ([Arrive(m), Take] + after);
    var ev := [Arrive(m), Take] + after;
    assert ev[0] == Arrive(m) && ev[1..][0] == Take;
  }

  /**
    The quiet timer: once a reply that does not complete the count has been
    kept, a timer value returns every reply kept so far, that one included.
   */
  lemma QuietTimerReturnsCollected(rc: RequestConfig, subject: string, s: Session,
                                   before: seq<Event>, m: Msg, after: seq<Event>)
    requires rc.maxInterval > 0
    requires Run(rc, subject, s, before).Continue? && Run(rc, subject, s, before).session.queue == []
    requires m.status != Unavailable
    requires rc.count == -1 || |Run(rc, subject, s, before).session.res| + 1 < rc.count
    ensures Run(rc, subject, s, before + [Arrive(m), Take, TimerFired] + after) ==
      Exit(Success(Run(rc, subject, s, before).session.res + [m]))
  {
    RunAppend(rc, subject, s, before, [Arrive(m), Take, TimerFired] + after);
    assert before + [Arrive(m), Take, TimerFired] + after == before + ([Arrive(m), Take, TimerFired] + after);
    var ev := [Arrive(m), Take, TimerFired] + after;
    var s1 := Run(rc, subject, s, before).session;
    var s2 := Session([m], s1.res, true);
    var s3 := Session([], s1.res + [m], true);
    assert ev[0] == Arrive(m) && ev[1..][0] == Take && ev[1..][1..][0] == TimerFired;
    assert StepSession(rc, subject, s1, Arrive(m)) == Continue(s2);
    assert StepSession(rc, subject, s2, Take) == Continue(s3);
    assert Run(rc, subject, s3, ev[1..][1..]) == Exit(Success(s1.res + [m]));
  }

  /** The outcome of `RequestMany`, as a function of its inputs. */
  function RequestManyOutcome(c: ClientConfig, subject: string, opts: seq<RequestManyOpt>, env: Transport)
    : Waited<Result<seq<Msg>>>
  {
    if subject == "" then Returned(Failure(Validation(SubjectEmpty)))
    else
      match ApplyRequestManyOpts(RequestDefaults(c), opts)
      case Failure(e) => Returned(Failure(e))
      case Success(rc) =>
        if env.subscribeErr.Some? then Returned(Failure(env.subscribeErr.value))
        else if env.publishErr.Some? then Returned(Failure(env.publishErr.value))
        else
          match Run(rc, subject, InitialSession, env.events)
          case Exit(r) => Returned(r)
          case Continue(_) => Blocked
  }

  /**
    What a client's `RequestMany` promises. An error is a validation error,
    an error of the transport, or the 503 refusal. A result is a prefix of
    the replies that arrived, in arrival order, with no 503 reply in it and
    never more than an expected count; it comes only after some reply has
    arrived, but it may be empty.
   */
  lemma RequestManyGuarantees(c: ClientConfig, subject: string, opts: seq<RequestManyOpt>, env: Transport)
    requires ValidClientConfig(c)
    ensures match RequestManyOutcome(c, subject, opts, env)
      case Returned(Failure(e)) =>
        e.Validation? || Some(e) == env.subscribeErr || Some(e) == env.publishErr || e == Unauthorized(subject)
      case Returned(Success(r)) =>
        && r <= RepliesOf(env.events)
        && NoUnavailable(r)
        && |RepliesOf(env.events)| >= 1
        && var rc := ApplyRequestManyOpts(RequestDefaults(c), opts).value;
           rc.count != -1 ==> |r| <= rc.count
      case Blocked => true
  {
    if subject != "" {
      ApplyRequestManyOptsValid(RequestDefaults(c), opts);
      var rco := ApplyRequestManyOpts(RequestDefaults(c), opts);
      if rco.Success? && env.subscribeErr.None? && env.publishErr.None? {
        RunKeepsDeliveryOrder(rco.value, subject, InitialSession, env.events);
        RunKeepsInvariant(rco.value, subject, InitialSession, env.events);
        assert InitialSession.res + InitialSession.queue + RepliesOf(env.events) == RepliesOf(env.events);
      }
    }
  }

  /** The `System` handle: the connection (abstract here) and the client's option record. */
  class System {
    const opts: SysClientOpts

    constructor (opts: SysClientOpts)
      ensures this.opts == opts
    {
      this.opts := opts;
    }

    /**
      Sends one request on `subject` and collects replies. The ghost results
      count the subscriptions taken and released and say whether the request
      was published: the subscription is released on every return, and a
      validation error comes before any subscription or publication.
     */
    method RequestMany(subject: string, data: Bytes, reqOpts: seq<RequestManyOpt>, env: Transport)
      returns (out: Waited<Result<seq<Msg>>>, ghost subscribed: nat, ghost unsubscribed: nat, ghost published: bool)
      ensures out == RequestManyOutcome(opts.Config(), subject, reqOpts, env)
      ensures out.Returned? ==> unsubscribed == subscribed
      ensures out.Blocked? ==> subscribed == 1 && unsubscribed == 0 && published
      ensures subscribed <= 1
      ensures published ==> subscribed == 1
      ensures subject == "" || ApplyRequestManyOpts(RequestDefaults(opts.Config()), reqOpts).Failure? ==>
        out.Returned? && out.result.Failure? && out.result.error.Validation? && subscribed == 0 && !published
    {
      subscribed, unsubscribed, published := 0, 0, false;
      if subject == "" {
        return Returned(Failure(Validation(SubjectEmpty))), subscribed, unsubscribed, published;
      }

      var c := opts.Config();
      var ro := new RequestManyOpts.FromClient(c);
      for j := 0 to |reqOpts|
        invariant ApplyRequestManyOpts(ro.Config(), reqOpts[j..]) == ApplyRequestManyOpts(RequestDefaults(c), reqOpts)
      {
        var err := ro.Apply(reqOpts[j]);
        assert reqOpts[j..][0] == reqOpts[j] && reqOpts[j..][1..] == reqOpts[j + 1..];
        if err.Some? {
          return Returned(Failure(err.value)), subscribed, unsubscribed, published;
        }
      }
      assert reqOpts[|reqOpts|..] == [];
      var rc := ro.Config();

      // conn.Subscribe(inbox, handler)
      if env.subscribeErr.Some? {
        return Returned(Failure(env.subscribeErr.value)), subscribed, unsubscribed, published;
      }
      subscribed := 1;

      // conn.PublishRequest(subject, inbox, data)
      published := true;
      if env.publishErr.Some? {
        unsubscribed := 1;
        return Returned(Failure(env.publishErr.value)), subscribed, unsubscribed, published;
      }

      var queue: seq<Msg> := [];
      var res: seq<Msg> := [];
      var timerArmed := false;
      var i := 0;
      while i < |env.events|
        invariant 0 <= i <= |env.events|
        invariant Run(rc, subject, Session(queue, res, timerArmed), env.events[i..]) ==
          Run(rc, subject, InitialSession, env.events)
        decreases |env.events| - i
      {
        assert env.events[i..][0] == env.events[i] && env.events[i..][1..] == env.events[i + 1..];
        var event := env.events[i];
        if event.Arrive? {
          // the subscription handler: re-arm the timer, then queue the reply
          if rc.maxInterval > 0 {
            timerArmed := true;
          }
          queue := queue + [event.msg];
        } else if event.Take? && queue != [] {
          var msg := queue[0];
          queue := queue[1..];
          if msg.status == Unavailable {
            unsubscribed := 1;
            return Returned(Failure(Unauthorized(subject))), subscribed, unsubscribed, published;
          }
          res := res + [msg];
          if rc.count != -1 && |res| == rc.count {
            unsubscribed := 1;
            return Returned(Success(res)), subscribed, unsubscribed, published;
          }
        } else if event.TimerFired? && timerArmed {
          unsubscribed := 1;
          return Returned(Success(res)), subscribed, unsubscribed, published;
        }
        i := i + 1;
      }
      out := Blocked;
    }
  }

  /**
    `NewSysClient`: the default record, updated in place by each option in
    turn; the first option error is returned with no client.
   */
  method NewSysClient(opts: seq<SysClientOpt>) returns (sys: System?, err: Option<Error>)
    ensures err.None? <==> NewClientConfig(opts).Success?
    ensures err.Some? ==> sys == null && Failure(err.value) == NewClientConfig(opts)
    ensures err.None? ==> sys != null && fresh(sys) && fresh(sys.opts) && Success(sys.opts.Config()) == NewClientConfig(opts)
  {
    var sysOpts := new SysClientOpts.Defaults();
    for j := 0 to |opts|
      invariant fresh(sysOpts)
      invariant ApplySysClientOpts(sysOpts.Config(), opts[j..]) == NewClientConfig(opts)
    {
      var e := sysOpts.Apply(opts[j]);
      assert opts[j..][0] == opts[j] && opts[j..][1..] == opts[j + 1..];
      if e.Some? {
        return null, e;
      }
    }
    assert opts[|opts|..] == [];
    sys := new System(sysOpts);
    err := None;
  }
}
