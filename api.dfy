/**
 * The decisions the HTTP API makes around the message stack and the router:
 * how query parameters default, how topics are converted, which status and
 * body each handler outcome produces, how metrics are reported and how
 * route snapshots are listed.
 */
module Api {
  import opened Common
  import opened SequenceNumbers
  import opened Metrics
  import Json

  /** How long the message stack keeps trying to deliver, when nothing else is said. */
  const DEFAULT_MESSAGE_TRY_DURATION_SECS: nat := 60 * 5

  const OK: int := 200
  const CREATED: int := 201
  const NO_CONTENT: int := 204
  const BAD_REQUEST: int := 400
  const NOT_FOUND: int := 404
  const REQUEST_TIMEOUT: int := 408
  const INTERNAL_SERVER_ERROR: int := 500

  /** A handler's answer: a JSON body, or only an HTTP status. */
  datatype HttpResult<T> = Ok(body: T) | Err(status: int)

  datatype MessageId = MessageId(bytes: seq<U8>)

  /* ---------------------------------------------------------------- destinations */

  datatype MessageDestination = Ip(ip: IpAddr) | Pk(pk: PublicKey)

  /**
   * The overlay address a message is sent to. A key is mapped by
   * `pkAddress`, the address derivation of the key, which is not part of
   * this model.
   */
  function DestinationIp(dst: MessageDestination, pkAddress: PublicKey -> seq<U8>): (r: IpAddr)
    ensures dst.Ip? ==> r == dst.ip
    ensures dst.Pk? ==> r == V6(pkAddress(dst.pk))
  {
    match dst
    case Ip(ip) => ip
    case Pk(pk) => V6(pkAddress(pk))
  }

  /* ---------------------------------------------------------------------- topics */

  /** A submitted topic as the message stack stores it: absent becomes empty. */
  function SubmittedTopic(topic: Option<seq<U8>>): (r: seq<U8>)
    ensures topic.None? ==> r == []
    ensures topic.Some? ==> r == topic.value
  {
    if topic.Some? then topic.value else []
  }

  /** A stored topic as the API reports it: empty becomes absent. */
  function ReportedTopic(topic: seq<U8>): (r: Option<seq<U8>>)
    ensures r.None? <==> topic == []
    ensures r.Some? ==> r.value == topic
  {
    if |topic| == 0 then None else Some(topic)
  }

  /** Submitting then reporting a topic keeps it unless it was present but empty. */
  lemma SubmittedThenReported(topic: Option<seq<U8>>)
    ensures ReportedTopic(SubmittedTopic(topic)) == topic <==> topic != Some([])
    ensures topic == Some([]) ==> ReportedTopic(SubmittedTopic(topic)) == None
  {
  }

  /** Every stored topic survives being reported and submitted again. */
  lemma ReportedThenSubmitted(topic: seq<U8>)
    ensures SubmittedTopic(ReportedTopic(topic)) == topic
  {
  }

  /* -------------------------------------------------------------------- messages */

  /** A message as the message stack hands it out. */
  datatype ReceivedMessage = ReceivedMessage(
    id: MessageId, srcIp: IpAddr, srcPk: PublicKey, dstIp: IpAddr, dstPk: PublicKey,
    topic: seq<U8>, data: seq<U8>)

  /** A message as the API reports it. */
  datatype MessageReceiveInfo = MessageReceiveInfo(
    id: MessageId, srcIp: IpAddr, srcPk: PublicKey, dstIp: IpAddr, dstPk: PublicKey,
    topic: Option<seq<U8>>, payload: seq<U8>)

  /** The report of a received message: every field copied, the topic reported. */
  function ReceiveInfo(m: ReceivedMessage): (r: MessageReceiveInfo)
    ensures r.id == m.id && r.srcIp == m.srcIp && r.srcPk == m.srcPk
    ensures r.dstIp == m.dstIp && r.dstPk == m.dstPk
    ensures r.topic == ReportedTopic(m.topic) && r.payload == m.data
  {
    MessageReceiveInfo(m.id, m.srcIp, m.srcPk, m.dstIp, m.dstPk, ReportedTopic(m.topic), m.data)
  }

  /** Reporting loses nothing: different messages give different reports. */
  lemma ReceiveInfoInjective(m1: ReceivedMessage, m2: ReceivedMessage)
    ensures ReceiveInfo(m1) == ReceiveInfo(m2) <==> m1 == m2
  {
    if ReceiveInfo(m1) == ReceiveInfo(m2) {
      ReportedThenSubmitted(m1.topic);
      ReportedThenSubmitted(m2.topic);
    }
  }

  /* ----------------------------------------------------------------- get_message */

  datatype GetMessageQuery = GetMessageQuery(peek: Option<bool>, timeout: Option<U64>, topic: Option<seq<U8>>)

  /** Whether the query asks to leave the message in the queue. */
  function Peek(q: GetMessageQuery): (r: bool)
    ensures r <==> q.peek == Some(true)
    ensures !r <==> (q.peek == None || q.peek == Some(false))
  {
    match q.peek
    case Some(b) => b
    case None => false
  }

  /** How many seconds to wait for a message; absent means 0. */
  function TimeoutSecs(q: GetMessageQuery): (r: U64)
    ensures q.timeout.Some? ==> r == q.timeout.value
    ensures q.timeout.None? ==> r == 0
  {
    if q.timeout.Some? then q.timeout.value else 0
  }

  /** The arguments `get_message` hands to the message stack. */
  datatype ReceiveCall = ReceiveCall(pop: bool, timeoutSecs: U64, topicFilter: Option<seq<U8>>)

  function GetMessageCall(q: GetMessageQuery): (c: ReceiveCall)
    ensures c.pop <==> (q.peek == None || q.peek == Some(false))
    ensures c.timeoutSecs == TimeoutSecs(q)
    ensures c.timeoutSecs == 0 <==> (q.timeout == None || q.timeout == Some(0))
    ensures c.topicFilter == q.topic
  {
    ReceiveCall(!Peek(q), TimeoutSecs(q), q.topic)
  }

  /** How a wait with a deadline ends. */
  datatype Wait<T> = Arrived(value: T) | Elapsed

  /** A message that arrives in time is reported; otherwise the answer is 204. */
  function GetMessage(outcome: Wait<ReceivedMessage>): (r: HttpResult<MessageReceiveInfo>)
    ensures r.Err? <==> outcome.Elapsed?
    ensures r.Err? ==> r.status == NO_CONTENT
    ensures outcome.Arrived? ==> r.Ok? && r.body == ReceiveInfo(outcome.value)
  {
    match outcome
    case Arrived(m) => Ok(ReceiveInfo(m))
    case Elapsed => Err(NO_CONTENT)
  }

  /* ---------------------------------------------------------------- push_message */

  datatype MessageSendInfo = MessageSendInfo(dst: MessageDestination, topic: Option<seq<U8>>, payload: seq<U8>)

  datatype PushMessageQuery = PushMessageQuery(replyTimeout: Option<U64>)

  /** Whether the caller waits for a reply: exactly when a reply timeout is given. */
  function AwaitReply(q: PushMessageQuery): (r: bool)
    ensures r <==> q.replyTimeout.Some?
  {
    q.replyTimeout.Some?
  }

  /** How many seconds to wait for a reply; absent means 0. */
  function ReplyTimeoutSecs(q: PushMessageQuery): (r: U64)
    ensures q.replyTimeout.Some? ==> r == q.replyTimeout.value
    ensures q.replyTimeout.None? ==> r == 0
  {
    if q.replyTimeout.Some? then q.replyTimeout.value else 0
  }

  /** The arguments `push_message` hands to the message stack. */
  datatype NewMessageCall = NewMessageCall(
    dst: IpAddr, payload: seq<U8>, topic: seq<U8>, tryDurationSecs: nat, awaitReply: bool)

  function PushMessageCall(q: PushMessageQuery, info: MessageSendInfo, pkAddress: PublicKey -> seq<U8>): (c: NewMessageCall)
    ensures c.dst == DestinationIp(info.dst, pkAddress)
    ensures c.payload == info.payload
    ensures c.topic == SubmittedTopic(info.topic)
    ensures c.tryDurationSecs == DEFAULT_MESSAGE_TRY_DURATION_SECS
    ensures c.awaitReply <==> q.replyTimeout.Some?
  {
    NewMessageCall(DestinationIp(info.dst, pkAddress), info.payload, SubmittedTopic(info.topic),
                   DEFAULT_MESSAGE_TRY_DURATION_SECS, AwaitReply(q))
  }

  /** What the message stack answers to a submission. */
  datatype SubmitOutcome = Rejected | Accepted(id: MessageId)

  /** Which of the reply subscription and the reply timer finishes first. */
  datatype ReplyWait =
    | ReplyChanged(reply: Option<ReceivedMessage>)
    | ReplySenderDropped
    | ReplyTimedOut

  datatype PushMessageResponse = Reply(info: MessageReceiveInfo) | Id(id: MessageId)

  /**
   * The answer of `push_message`. `wait` is only looked at when the caller
   * waits for a reply.
   */
  function PushMessage(q: PushMessageQuery, submit: SubmitOutcome, wait: ReplyWait): (r: HttpResult<(int, PushMessageResponse)>)
    ensures submit.Rejected? ==> r == Err(BAD_REQUEST)
    ensures submit.Accepted? && q.replyTimeout.None? ==> r == Ok((CREATED, Id(submit.id)))
    ensures submit.Accepted? && q.replyTimeout.Some? ==>
      match wait
      case ReplyChanged(Some(m)) => r == Ok((OK, Reply(ReceiveInfo(m))))
      case ReplyChanged(None) => r == Err(INTERNAL_SERVER_ERROR)
      case ReplySenderDropped => r == Err(INTERNAL_SERVER_ERROR)
      case ReplyTimedOut => r == Ok((REQUEST_TIMEOUT, Id(submit.id)))
  {
    match submit
    case Rejected => Err(BAD_REQUEST)
    case Accepted(id) =>
      if !AwaitReply(q) then Ok((CREATED, Id(id)))
      else
        match wait
        case ReplyChanged(reply) =>
          if reply.Some? then Ok((OK, Reply(ReceiveInfo(reply.value)))) else Err(INTERNAL_SERVER_ERROR)
        case ReplySenderDropped => Err(INTERNAL_SERVER_ERROR)
        case ReplyTimedOut => Ok((REQUEST_TIMEOUT, Id(id)))
  }

  /**
   * The shapes `push_message` can answer with: 200 always carries the reply,
   * 201 and 408 carry the id of the accepted message, and the only error
   * statuses are 400 (submission refused) and 500 (broken reply channel).
   */
  lemma PushMessageShapes(q: PushMessageQuery, submit: SubmitOutcome, wait: ReplyWait)
    ensures var r := PushMessage(q, submit, wait);
      && (r.Ok? ==> r.body.0 == OK || r.body.0 == CREATED || r.body.0 == REQUEST_TIMEOUT)
      && (r.Ok? ==> (r.body.1.Reply? <==> r.body.0 == OK))
      && (r.Ok? && r.body.1.Id? ==> submit.Accepted? && r.body.1.id == submit.id)
      && (r.Err? ==> r.status == BAD_REQUEST || r.status == INTERNAL_SERVER_ERROR)
      && (r == Err(BAD_REQUEST) <==> submit.Rejected?)
      && (r.Ok? && r.body.0 == CREATED <==> submit.Accepted? && !AwaitReply(q))
  {
  }

  /* --------------------------------------------------------------- reply_message */

  /** The arguments `reply_message` hands to the message stack. */
  datatype ReplyCall = ReplyCall(id: MessageId, dst: IpAddr, payload: seq<U8>, tryDurationSecs: nat)

  /**
   * A reply is handed on with the original id, the destination's address,
   * the payload and the default try duration, and the answer is always 204.
   * The topic of the request body is not passed on.
   */
  function ReplyMessage(id: MessageId, info: MessageSendInfo, pkAddress: PublicKey -> seq<U8>): (r: (ReplyCall, int))
    ensures r.1 == NO_CONTENT
    ensures r.0.id == id && r.0.dst == DestinationIp(info.dst, pkAddress)
    ensures r.0.payload == info.payload && r.0.tryDurationSecs == DEFAULT_MESSAGE_TRY_DURATION_SECS
  {
    (ReplyCall(id, DestinationIp(info.dst, pkAddress), info.payload, DEFAULT_MESSAGE_TRY_DURATION_SECS), NO_CONTENT)
  }

  /* -------------------------------------------------------------- message_status */

  /** The stored status of a message is returned; an unknown id gives 404. */
  function MessageStatus<I>(info: Option<I>): (r: HttpResult<I>)
    ensures r.Err? <==> info.None?
    ensures r.Err? ==> r.status == NOT_FOUND
    ensures info.Some? ==> r == Ok(info.value)
  {
    if info.Some? then Ok(info.value) else Err(NOT_FOUND)
  }

  /* ---------------------------------------------------------------------- metric */

  /** A metric as the API reports it. */
  datatype ApiMetric = Value(v: U16) | Infinite

  function ToApiMetric(m: Metric): (r: ApiMetric)
    ensures r == Infinite <==> IsInfinite(m)
    ensures r.Value? ==> r.v == m.value
  {
    if IsInfinite(m) then Infinite else Value(m.value)
  }

  /** The report keeps metrics apart: an infinite metric never looks like a finite one. */
  lemma ToApiMetricInjective(a: Metric, b: Metric)
    ensures ToApiMetric(a) == ToApiMetric(b) <==> a == b
  {
  }

  /** The JSON text of a reported metric. */
  function MetricJson(m: ApiMetric): (r: string)
    ensures m.Infinite? ==> r == Json.Quoted("infinite")
    ensures m.Value? ==> r == Json.Decimal(m.v) && |r| >= 1 && Json.AllDigits(r)
  {
    match m
    case Infinite => Json.Quoted("infinite")
    case Value(v) => Json.Decimal(v)
  }

  /** Reads the JSON text of a metric back. */
  function ParseMetricJson(s: string): Option<ApiMetric> {
    if s == Json.Quoted("infinite") then Some(Infinite)
    else if |s| >= 1 && Json.AllDigits(s) && Json.ParseDecimal(s) < 0x1_0000 then Some(Value(Json.ParseDecimal(s)))
    else None
  }

  /** Every reported metric can be read back from its JSON text. */
  lemma MetricJsonRoundTrip(m: ApiMetric)
    ensures ParseMetricJson(MetricJson(m)) == Some(m)
  {
    if m.Value? {
      Json.DecimalRoundTrip(m.v);
      assert !Json.IsDigit(Json.Quoted("infinite")[0]);
    }
  }

  /** No finite metric is written like the infinite one, and finite ones are written apart. */
  lemma MetricJsonDistinct(a: ApiMetric, b: ApiMetric)
    ensures MetricJson(a) == MetricJson(b) <==> a == b
  {
    MetricJsonRoundTrip(a);
    MetricJsonRoundTrip(b);
  }

  lemma FiniteMetricSerialization()
    ensures MetricJson(Value(10)) == "10"
  {
    assert Json.Decimal(1) == "1";
  }

  lemma InfiniteMetricSerialization()
    ensures MetricJson(Infinite) == "\"infinite\""
  {
  }

  /* ---------------------------------------------------------------------- routes */

  /** A route from the router's snapshot; `neighbour` is the next hop's connection identifier. */
  datatype RouteEntry = RouteEntry(subnet: Subnet, neighbour: string, metric: Metric, seqno: SeqNo)

  /** A route as the API reports it. */
  datatype Route = Route(subnet: string, nextHop: string, metric: ApiMetric, seqno: U16)

  function ToRoute(sr: RouteEntry, showSubnet: Subnet -> string): Route {
    Route(showSubnet(sr.subnet), sr.neighbour, ToApiMetric(sr.metric), sr.seqno.value)
  }

  /**
   * The report of a list of routes, in the order of the snapshot. Subnets
   * are shown through `showSubnet`, the subnet's text form, which is not
   * part of this model.
   */
  function RouteListing(routes: seq<RouteEntry>, showSubnet: Subnet -> string): (r: seq<Route>)
    ensures |r| == |routes|
    ensures forall i :: 0 <= i < |routes| ==>
      && r[i].subnet == showSubnet(routes[i].subnet)
      && r[i].nextHop == routes[i].neighbour
      && r[i].metric == ToApiMetric(routes[i].metric)
      && r[i].seqno == routes[i].seqno.value
  {
    seq(|routes|, i requires 0 <= i < |routes| => ToRoute(routes[i], showSubnet))
  }

  /** Listing is order-preserving: the listing of two runs of routes is the two listings in turn. */
  lemma RouteListingAppend(a: seq<RouteEntry>, b: seq<RouteEntry>, showSubnet: Subnet -> string)
    ensures RouteListing(a + b, showSubnet) == RouteListing(a, showSubnet) + RouteListing(b, showSubnet)
  {
    var l, la, lb := RouteListing(a + b, showSubnet), RouteListing(a, showSubnet), RouteListing(b, showSubnet);
    forall i | 0 <= i < |l|
      ensures l[i] == (la + lb)[i]
    {
      if i >= |a| {
        assert (a + b)[i] == b[i - |a|];
      }
    }
  }

  /** A route that the router retracted (infinite metric) is listed as `"infinite"`. */
  lemma RetractedRouteListedInfinite(routes: seq<RouteEntry>, showSubnet: Subnet -> string, i: nat)
    requires i < |routes| && IsInfinite(routes[i].metric)
    ensures MetricJson(RouteListing(routes, showSubnet)[i].metric) == "\"infinite\""
  {
  }
}
