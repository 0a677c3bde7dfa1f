/**
 * The session-multiplexing gateway (im-server/gateway/service.go). Browser clients connect
 * over WebSocket; one AI bus connects over a gRPC bidirectional stream. The gateway keeps a
 * registry from session id to WebSocket connection, announces each session to the bus with a
 * session_open envelope, relays client frames upstream as data envelopes, routes bus
 * envelopes down to the session's connection, and sends session_close when a client goes.
 *
 * Each operation is first given as a function on a State value (Send, Forward, Open, Teardown)
 * that GatewayServer's methods are proved against. Goroutines and locks are modelled as an
 * interleaving of atomic steps (Step): each sync.Map call, locked section or call on a
 * connection is one step, and ForwardSteps, OpenSteps and TeardownSteps split the operations
 * into theirs. Connections and streams are opaque identities; what the gateway does to them
 * (writes, closes, sends) is recorded in logs.
 */
module Gateway {
  import opened Wrappers
  import opened Text
  import Token

  type ConnId = nat
  type StreamId = nat

  // ----- envelopes -----

  const EventSessionOpen := "session_open"
  const EventSessionClose := "session_close"
  const EventData := "data"

  /** websocket.TextMessage, the text opcode of RFC 6455 section 5.2. */
  const TextMessage := 1

  /** ImMessage: the JSON envelope exchanged with the bus. */
  datatype ImMessage = ImMessage(event: string, sessionId: string, headers: map<string, string>,
                                 messageType: int, payload: seq<byte>)

  function OpenMsg(sid: string, headers: map<string, string>): ImMessage
  {
    ImMessage(EventSessionOpen, sid, headers, 0, [])
  }

  function CloseMsg(sid: string): ImMessage
  {
    ImMessage(EventSessionClose, sid, map[], 0, [])
  }

  function DataMsg(sid: string, messageType: int, data: seq<byte>): ImMessage
  {
    ImMessage(EventData, sid, map[], messageType, data)
  }

  /** One envelope handed to SendMsg on a bus stream. */
  datatype Sent = Sent(stream: StreamId, msg: ImMessage)

  /** One WriteMessage call on a client connection. */
  datatype Write = Write(conn: ConnId, messageType: int, payload: seq<byte>)

  // ----- the gateway state as a value -----

  /**
   * The registry, the bus stream held (if any), and the logs of what went up the bus, what
   * was written to clients and which connections were closed.
   */
  datatype State = State(conns: map<string, ConnId>, stream: Option<StreamId>,
                         sent: seq<Sent>, writes: seq<Write>, closed: seq<ConnId>)

  /** gatewaySend: dropped when no stream is held, else one envelope on the held stream. */
  function Send(st: State, msg: ImMessage): (r: State)
    ensures r.conns == st.conns && r.stream == st.stream && r.writes == st.writes && r.closed == st.closed
    ensures st.stream.None? ==> r.sent == st.sent
    ensures st.stream.Some? ==> r.sent == st.sent + [Sent(st.stream.value, msg)]
  {
    if st.stream.None? then st else st.(sent := st.sent + [Sent(st.stream.value, msg)])
  }

  /** messageGatewayHandler's first step: the new stream replaces whatever was held. */
  function Accept(st: State, s: StreamId): (r: State)
    ensures r == Run(st, [AttachStream(s)])
  {
    RunShort(st, [AttachStream(s)]);
    st.(stream := Some(s))
  }

  /** The WebSocket message type of a downstream envelope: 0 means text. */
  function FrameType(messageType: int): int
  {
    if messageType != 0 then messageType else TextMessage
  }

  /** forwardToClient */
  function Forward(st: State, msg: Option<ImMessage>): (r: State)
    ensures r == Run(st, ForwardSteps(st, msg))
  {
    RunShort(st, ForwardSteps(st, msg));
    if msg.None? || msg.value.sessionId == "" || msg.value.sessionId !in st.conns then st
    else
      var sid := msg.value.sessionId;
      var c := st.conns[sid];
      if msg.value.event == EventSessionClose then
        st.(conns := st.conns - {sid}, closed := st.closed + [c])
      else
        st.(writes := st.writes + [Write(c, FrameType(msg.value.messageType), msg.value.payload)])
  }

  /** The receive loop of messageGatewayHandler: every envelope read is forwarded, in order. */
  function ForwardAll(st: State, msgs: seq<ImMessage>): State
  {
    if msgs == [] then st
    else Forward(ForwardAll(st, msgs[..|msgs| - 1]), Some(msgs[|msgs| - 1]))
  }

  /** The end of HandleWebSocket: store the session, then announce it. */
  function Open(st: State, sid: string, conn: ConnId, headers: map<string, string>): (r: State)
    ensures r == Run(st, OpenSteps(sid, conn, headers))
  {
    RunShort(st, OpenSteps(sid, conn, headers));
    Send(st.(conns := st.conns[sid := conn]), OpenMsg(sid, headers))
  }

  /** One client frame becomes one data envelope for its session. */
  function Frame(st: State, sid: string, messageType: int, data: seq<byte>): (r: State)
    ensures r == Run(st, [SendEnvelope(DataMsg(sid, messageType, data))])
  {
    RunShort(st, [SendEnvelope(DataMsg(sid, messageType, data))]);
    Send(st, DataMsg(sid, messageType, data))
  }

  /** The read loop's deferred teardown: delete the id, send session_close, close the connection. */
  function Teardown(st: State, sid: string, conn: ConnId): (r: State)
    ensures r == Run(st, TeardownSteps(sid, conn))
  {
    RunShort(st, TeardownSteps(sid, conn));
    var s := Send(st.(conns := st.conns - {sid}), CloseMsg(sid));
    s.(closed := s.closed + [conn])
  }

  /** A client frame as ReadMessage returns it. */
  datatype Inbound = Inbound(messageType: int, data: seq<byte>)

  function FrameAll(st: State, sid: string, frames: seq<Inbound>): State
  {
    if frames == [] then st
    else
      var f := frames[|frames| - 1];
      Frame(FrameAll(st, sid, frames[..|frames| - 1]), sid, f.messageType, f.data)
  }

  function DataEnvelopes(s: StreamId, sid: string, frames: seq<Inbound>): seq<Sent>
  {
    if frames == [] then []
    else
      var f := frames[|frames| - 1];
      DataEnvelopes(s, sid, frames[..|frames| - 1]) + [Sent(s, DataMsg(sid, f.messageType, f.data))]
  }

  // ----- properties of the steps -----

  /** A nil envelope, an empty session id or an unregistered id changes nothing. */
  lemma ForwardDropsUnroutable(st: State, msg: Option<ImMessage>)
    requires msg.None? || msg.value.sessionId == "" || msg.value.sessionId !in st.conns
    ensures Forward(st, msg) == st
  {
  }

  /** A bus session_close closes exactly that session's connection and deletes exactly its key. */
  lemma ForwardCloseRemovesOne(st: State, msg: ImMessage)
    requires msg.sessionId != "" && msg.sessionId in st.conns && msg.event == EventSessionClose
    ensures var r := Forward(st, Some(msg));
      && r.conns.Keys == st.conns.Keys - {msg.sessionId}
      && (forall k :: k in r.conns ==> r.conns[k] == st.conns[k])
      && r.closed == st.closed + [st.conns[msg.sessionId]]
      && r.writes == st.writes && r.sent == st.sent && r.stream == st.stream
  {
  }

  /** Any other routed envelope is written to the session's connection; the session stays registered. */
  lemma ForwardDataWrites(st: State, msg: ImMessage)
    requires msg.sessionId != "" && msg.sessionId in st.conns && msg.event != EventSessionClose
    ensures var r := Forward(st, Some(msg));
      && r.writes == st.writes + [Write(st.conns[msg.sessionId], FrameType(msg.messageType), msg.payload)]
      && r.conns == st.conns && r.closed == st.closed && r.sent == st.sent && r.stream == st.stream
    ensures FrameType(msg.messageType) == (if msg.messageType == 0 then TextMessage else msg.messageType)
  {
  }

  /**
   * Downstream traffic only shrinks the registry and never sends anything upstream: every
   * session left is still bound to its connection.
   */
  lemma {:induction false} ForwardAllShrinks(st: State, msgs: seq<ImMessage>)
    ensures var r := ForwardAll(st, msgs);
      && r.conns.Keys <= st.conns.Keys
      && (forall k :: k in r.conns ==> r.conns[k] == st.conns[k])
      && r.sent == st.sent && r.stream == st.stream
      && |r.writes| + |r.closed| <= |st.writes| + |st.closed| + |msgs|
  {
    if msgs != [] {
      ForwardAllShrinks(st, msgs[..|msgs| - 1]);
    }
  }

  /** A session's frames go up as data envelopes, one per frame in read order, on the held stream. */
  lemma {:induction false} FrameAllSendsInOrder(st: State, sid: string, frames: seq<Inbound>)
    requires st.stream.Some?
    ensures var r := FrameAll(st, sid, frames);
      r.sent == st.sent + DataEnvelopes(st.stream.value, sid, frames)
      && r.conns == st.conns && r.stream == st.stream && r.writes == st.writes && r.closed == st.closed
  {
    if frames != [] {
      FrameAllSendsInOrder(st, sid, frames[..|frames| - 1]);
    }
  }

  /**
   * Storing before announcing: from the moment session_open has been sent, the id is routed to
   * the new connection, so a bus reply to it reaches that connection.
   */
  lemma {:induction false} ReplyToOpenIsDelivered(st: State, sid: string, conn: ConnId, headers: map<string, string>,
                                                  reply: ImMessage)
    requires sid != "" && reply.sessionId == sid && reply.event != EventSessionClose
    ensures forall i :: 0 <= i <= |OpenSteps(sid, conn, headers)| &&
                        SendEnvelope(OpenMsg(sid, headers)) in OpenSteps(sid, conn, headers)[..i] ==>
              var mid := Run(st, OpenSteps(sid, conn, headers)[..i]);
              sid in mid.conns && mid.conns[sid] == conn &&
              Forward(mid, Some(reply)).writes == mid.writes + [Write(conn, FrameType(reply.messageType), reply.payload)]
  {
    var steps := OpenSteps(sid, conn, headers);
    assert steps[..0] == [];
    assert steps[..1] == [StoreConn(sid, conn)];
    assert steps[..2] == steps;
    RunOne(st, StoreConn(sid, conn));
    RunTwo(st, StoreConn(sid, conn), SendEnvelope(OpenMsg(sid, headers)));
  }

  /**
   * A duplicate Session-Id replaces the earlier connection in the registry. When the displaced
   * connection's read loop ends, its teardown deletes the id, so the replacement stops
   * receiving downstream traffic while its own read loop goes on.
   */
  lemma DisplacedTeardownOrphansReplacement(st: State, sid: string, old1: ConnId, new2: ConnId,
                                            headers: map<string, string>, reply: ImMessage)
    requires sid != "" && sid in st.conns && st.conns[sid] == old1 && old1 != new2
    requires reply.sessionId == sid
    ensures Open(st, sid, new2, headers).conns[sid] == new2
    ensures var after := Teardown(Open(st, sid, new2, headers), sid, old1);
      sid !in after.conns && Forward(after, Some(reply)) == after
  {
  }

  // ----- interleavings -----

  /**
   * One atomic action on the shared state: a sync.Map call, one locked section, or one call on
   * a client connection. conns.Load only reads, so it is no step: what a goroutine does after a
   * Load is computed from the state that Load observed, and may then run interleaved with others.
   */
  datatype Step =
    | AttachStream(s: StreamId)
    | StoreConn(sid: string, conn: ConnId)
    | DeleteConn(sid: string)
    | SendEnvelope(msg: ImMessage)
    | WriteConn(conn: ConnId, messageType: int, payload: seq<byte>)
    | CloseConn(conn: ConnId)

  function Apply(st: State, step: Step): State
  {
    match step
    case AttachStream(s) => st.(stream := Some(s))
    case StoreConn(sid, c) => st.(conns := st.conns[sid := c])
    case DeleteConn(sid) => st.(conns := st.conns - {sid})
    case SendEnvelope(m) => Send(st, m)
    case WriteConn(c, t, p) => st.(writes := st.writes + [Write(c, t, p)])
    case CloseConn(c) => st.(closed := st.closed + [c])
  }

  function Run(st: State, steps: seq<Step>): State
    decreases |steps|
  {
    if steps == [] then st else Run(Apply(st, steps[0]), steps[1..])
  }

  lemma {:induction false} RunAppend(st: State, a: seq<Step>, b: seq<Step>)
    ensures Run(st, a + b) == Run(Run(st, a), b)
    decreases |a|
  {
    if a == [] {
      assert a + b == b;
    } else {
      assert (a + b)[0] == a[0];
      assert (a + b)[1..] == a[1..] + b;
      RunAppend(Apply(st, a[0]), a[1..], b);
    }
  }

  /** The steps forwardToClient takes once its Load has observed `seen`: Close then Delete, or one write. */
  function ForwardSteps(seen: State, msg: Option<ImMessage>): seq<Step>
  {
    if msg.None? || msg.value.sessionId == "" || msg.value.sessionId !in seen.conns then []
    else
      var c := seen.conns[msg.value.sessionId];
      if msg.value.event == EventSessionClose then [CloseConn(c), DeleteConn(msg.value.sessionId)]
      else [WriteConn(c, FrameType(msg.value.messageType), msg.value.payload)]
  }

  /** The end of HandleWebSocket: Store, then the locked send of session_open. */
  function OpenSteps(sid: string, conn: ConnId, headers: map<string, string>): seq<Step>
  {
    [StoreConn(sid, conn), SendEnvelope(OpenMsg(sid, headers))]
  }

  /** The deferred teardown: Delete, the locked send of session_close, Close. */
  function TeardownSteps(sid: string, conn: ConnId): seq<Step>
  {
    [DeleteConn(sid), SendEnvelope(CloseMsg(sid)), CloseConn(conn)]
  }

  lemma RunOne(st: State, x: Step)
    ensures Run(st, [x]) == Apply(st, x)
  {
    assert [x][1..] == [];
  }

  lemma RunTwo(st: State, x: Step, y: Step)
    ensures Run(st, [x, y]) == Apply(Apply(st, x), y)
  {
    assert [x, y][1..] == [y];
    RunOne(Apply(st, x), y);
  }

  /** Run on at most three steps, unfolded. */
  lemma RunShort(st: State, steps: seq<Step>)
    requires |steps| <= 3
    ensures |steps| == 0 ==> Run(st, steps) == st
    ensures |steps| == 1 ==> Run(st, steps) == Apply(st, steps[0])
    ensures |steps| == 2 ==> Run(st, steps) == Apply(Apply(st, steps[0]), steps[1])
    ensures |steps| == 3 ==> Run(st, steps) == Apply(Apply(Apply(st, steps[0]), steps[1]), steps[2])
  {
    if |steps| == 1 {
      RunOne(st, steps[0]);
    } else if |steps| == 2 {
      assert steps == [steps[0], steps[1]];
      RunTwo(st, steps[0], steps[1]);
    } else if |steps| == 3 {
      assert steps[1..] == [steps[1], steps[2]];
      RunTwo(Apply(st, steps[0]), steps[1], steps[2]);
    }
  }

  /**
   * The held stream is never cleared: once a bus has attached, the gateway reports itself
   * connected for ever, whatever the goroutines do, and without a new attach the stream stays
   * the same one.
   */
  lemma {:induction false} StreamNeverReset(st: State, steps: seq<Step>)
    ensures st.stream.Some? ==> Run(st, steps).stream.Some?
    ensures (forall i :: 0 <= i < |steps| ==> !steps[i].AttachStream?) ==> Run(st, steps).stream == st.stream
    decreases |steps|
  {
    if steps != [] {
      StreamNeverReset(Apply(st, steps[0]), steps[1..]);
      if forall i :: 0 <= i < |steps| ==> !steps[i].AttachStream? {
        assert forall i :: 0 <= i < |steps| - 1 ==> steps[1..][i] == steps[i + 1];
      }
    }
  }

  function Repeat<T>(x: T, n: nat): seq<T>
  {
    if n == 0 then [] else [x] + Repeat(x, n - 1)
  }

  /** How often x occurs in steps. */
  function Occurrences(steps: seq<Step>, x: Step): nat
  {
    if steps == [] then 0 else (if steps[0] == x then 1 else 0) + Occurrences(steps[1..], x)
  }

  lemma {:induction false} OccurrencesAreMultiplicity(steps: seq<Step>, x: Step)
    ensures Occurrences(steps, x) == multiset(steps)[x]
  {
    if steps != [] {
      OccurrencesAreMultiplicity(steps[1..], x);
      assert steps == [steps[0]] + steps[1..];
    }
  }

  /** A step that belongs to closing session sid on connection conn. */
  predicate IsCloseStep(x: Step, sid: string, conn: ConnId)
  {
    x == DeleteConn(sid) || x == CloseConn(conn) || x == SendEnvelope(CloseMsg(sid))
  }

  /** Deletes of one id, closes of one connection and sends of its session_close: only how often each occurs matters. */
  lemma CloseStepsEffect(st: State, sid: string, conn: ConnId, steps: seq<Step>)
    requires forall i :: 0 <= i < |steps| ==> IsCloseStep(steps[i], sid, conn)
    ensures var r := Run(st, steps);
      && r.conns == (if Occurrences(steps, DeleteConn(sid)) > 0 then st.conns - {sid} else st.conns)
      && r.stream == st.stream && r.writes == st.writes
      && r.closed == st.closed + Repeat(conn, Occurrences(steps, CloseConn(conn)))
      && r.sent == st.sent + (if st.stream.Some? then Repeat(Sent(st.stream.value, CloseMsg(sid)), Occurrences(steps, SendEnvelope(CloseMsg(sid)))) else [])
  {
    CloseStepsRegistry(st, sid, conn, steps);
    CloseStepsLogs(st, sid, conn, steps);
  }

  lemma {:induction false} CloseStepsRegistry(st: State, sid: string, conn: ConnId, steps: seq<Step>)
    requires forall i :: 0 <= i < |steps| ==> IsCloseStep(steps[i], sid, conn)
    ensures Run(st, steps).conns == (if Occurrences(steps, DeleteConn(sid)) > 0 then st.conns - {sid} else st.conns)
    ensures Run(st, steps).stream == st.stream && Run(st, steps).writes == st.writes
    decreases |steps|
  {
    if steps != [] {
      assert IsCloseStep(steps[0], sid, conn);
      CloseStepsRegistry(Apply(st, steps[0]), sid, conn, steps[1..]);
    }
  }

  lemma {:induction false} CloseStepsLogs(st: State, sid: string, conn: ConnId, steps: seq<Step>)
    requires forall i :: 0 <= i < |steps| ==> IsCloseStep(steps[i], sid, conn)
    ensures Run(st, steps).closed == st.closed + Repeat(conn, Occurrences(steps, CloseConn(conn)))
    ensures Run(st, steps).sent == st.sent + (if st.stream.Some? then Repeat(Sent(st.stream.value, CloseMsg(sid)), Occurrences(steps, SendEnvelope(CloseMsg(sid)))) else [])
    decreases |steps|
  {
    if steps != [] {
      var x := steps[0];
      var rest := steps[1..];
      assert IsCloseStep(x, sid, conn);
      CloseStepsRegistry(st, sid, conn, [x]);
      CloseStepsLogs(Apply(st, x), sid, conn, rest);
      if x == CloseConn(conn) {
        AppendRepeat(st.closed, conn, Occurrences(rest, x));
      } else if x == SendEnvelope(CloseMsg(sid)) && st.stream.Some? {
        AppendRepeat(st.sent, Sent(st.stream.value, CloseMsg(sid)), Occurrences(rest, x));
      }
    }
  }

  lemma AppendRepeat<T>(xs: seq<T>, x: T, k: nat)
    ensures xs + [x] + Repeat(x, k) == xs + Repeat(x, k + 1)
  {
    assert Repeat(x, k + 1) == [x] + Repeat(x, k);
  }

  /**
   * A bus close and the client's teardown race for one session, their steps in any order. The
   * bus close's Load either saw the session, and then closes the connection and deletes the id,
   * or came after the teardown's Delete, and then drops the envelope. Either way the registry
   * ends without the session and the bus hears exactly one session_close from the gateway; when
   * the bus close saw the session the connection is closed twice.
   */
  lemma TeardownOrderIndependent(st: State, seen: State, sid: string, conn: ConnId, busClose: ImMessage,
                                 steps: seq<Step>)
    requires sid != "" && busClose.sessionId == sid && busClose.event == EventSessionClose
    requires sid in seen.conns ==> seen.conns[sid] == conn
    requires multiset(steps) == multiset(ForwardSteps(seen, Some(busClose)) + TeardownSteps(sid, conn))
    ensures var r := Run(st, steps);
      && r.conns == st.conns - {sid}
      && r.sent == Send(st, CloseMsg(sid)).sent
      && r.stream == st.stream && r.writes == st.writes
      && r.closed == st.closed + (if sid in seen.conns then [conn, conn] else [conn])
  {
    var m := multiset(steps);
    forall i | 0 <= i < |steps|
      ensures steps[i] == DeleteConn(sid) || steps[i] == CloseConn(conn) || steps[i] == SendEnvelope(CloseMsg(sid))
    {
      assert steps[i] in m;
    }
    CloseStepsEffect(st, sid, conn, steps);
    OccurrencesAreMultiplicity(steps, DeleteConn(sid));
    OccurrencesAreMultiplicity(steps, CloseConn(conn));
    OccurrencesAreMultiplicity(steps, SendEnvelope(CloseMsg(sid)));
    assert m[DeleteConn(sid)] > 0;
    assert m[SendEnvelope(CloseMsg(sid))] == 1;
    if sid in seen.conns {
      assert m[CloseConn(conn)] == 2;
      assert Repeat(conn, 2) == [conn, conn];
    } else {
      assert m[CloseConn(conn)] == 1;
    }
  }

  /**
   * A new connection reuses the id of a session being torn down: the teardown's Delete runs,
   * the new session is stored and announced, then the teardown sends session_close. The
   * registry routes the id to the new connection, yet the last the bus heard of the id is
   * session_close.
   */
  lemma TeardownRacesReopen(st: State, sid: string, old1: ConnId, new2: ConnId, headers: map<string, string>)
    requires st.stream.Some?
    ensures var t := TeardownSteps(sid, old1);
      var r := Run(st, t[..1] + OpenSteps(sid, new2, headers) + t[1..]);
      && r.conns == st.conns[sid := new2]
      && r.sent == st.sent + [Sent(st.stream.value, OpenMsg(sid, headers)), Sent(st.stream.value, CloseMsg(sid))]
      && r.closed == st.closed + [old1]
  {
    var t := TeardownSteps(sid, old1);
    var o := OpenSteps(sid, new2, headers);
    RunAppend(st, t[..1] + o, t[1..]);
    RunAppend(st, t[..1], o);
    assert t[..1] == [DeleteConn(sid)];
    RunOne(st, DeleteConn(sid));
    var st1 := Apply(st, DeleteConn(sid));
    RunTwo(st1, o[0], o[1]);
    var st2 := Apply(Apply(st1, o[0]), o[1]);
    assert t[1..] == [t[1], t[2]];
    RunTwo(st2, t[1], t[2]);
    assert (st.conns - {sid})[sid := new2] == st.conns[sid := new2];
  }

  /**
   * forwardToClient's Load sees the old connection; before it closes and deletes, a new
   * connection with the same id is stored and announced. The bus close then deletes the id:
   * the new connection stays open, but no downstream envelope can reach it.
   */
  lemma ForwardRacesReopen(st: State, sid: string, old1: ConnId, new2: ConnId, headers: map<string, string>,
                           busClose: ImMessage)
    requires sid != "" && sid in st.conns && st.conns[sid] == old1 && new2 !in st.closed && old1 != new2
    requires busClose.sessionId == sid && busClose.event == EventSessionClose
    ensures var r := Run(st, OpenSteps(sid, new2, headers) + ForwardSteps(st, Some(busClose)));
      && sid !in r.conns
      && r.closed == st.closed + [old1] && new2 !in r.closed
  {
    var o := OpenSteps(sid, new2, headers);
    RunAppend(st, o, ForwardSteps(st, Some(busClose)));
    RunTwo(st, o[0], o[1]);
    RunTwo(Run(st, o), CloseConn(old1), DeleteConn(sid));
  }

  // ----- admission -----

  /** A request as the handler sees it: canonical header names and query parameters, one value each. */
  datatype Request = Request(headers: map<string, string>, query: map<string, string>)

  /** Header.Get / Values.Get: the value, or "" when absent. */
  function Get(m: map<string, string>, key: string): string
  {
    if key in m then m[key] else ""
  }

  /** In browser mode, non-empty query parameters become headers; a token becomes a Bearer credential. */
  function RequestHeaders(browser: bool, r: Request): map<string, string>
  {
    if !browser then r.headers
    else
      var q := r.query;
      var h0 := r.headers;
      var h1 := if Get(q, "device-id") != "" then h0["Device-Id" := Get(q, "device-id")] else h0;
      var h2 := if Get(q, "client-id") != "" then h1["Client-Id" := Get(q, "client-id")] else h1;
      var h3 := if Get(q, "session-id") != "" then h2["Session-Id" := Get(q, "session-id")] else h2;
      var h4 := if Get(q, "transport-type") != "" then h3["Transport-Type" := Get(q, "transport-type")] else h3;
      if Get(q, "token") != "" then h4["Authorization" := "Bearer " + Get(q, "token")]["Token" := Get(q, "token")]
      else h4
  }

  /** The query parameter each translated header is read from. */
  function QueryParam(header: string): string
  {
    if header == "Device-Id" then "device-id"
    else if header == "Client-Id" then "client-id"
    else if header == "Session-Id" then "session-id"
    else if header == "Transport-Type" then "transport-type"
    else ""
  }

  const Bearer := "Bearer "

  /** The credential after the "Bearer " scheme (RFC 6750 section 2.1), if the header has it. */
  function BearerToken(headers: map<string, string>): (t: Option<string>)
    ensures t.Some? <==> HasPrefix(Get(headers, "Authorization"), Bearer)
    ensures t.Some? ==> Bearer + t.value == Get(headers, "Authorization")
  {
    var auth := Get(headers, "Authorization");
    if HasPrefix(auth, Bearer) then Some(auth[|Bearer|..]) else None
  }

  /**
   * Browser translation: a non-empty parameter overrides its header, an empty or missing one
   * leaves the header alone, and a token t arrives as exactly the credential t.
   */
  lemma BrowserTranslation(r: Request, header: string)
    requires header in {"Device-Id", "Client-Id", "Session-Id", "Transport-Type"}
    ensures var h := RequestHeaders(true, r); var v := Get(r.query, QueryParam(header));
      Get(h, header) == (if v != "" then v else Get(r.headers, header))
    ensures var h := RequestHeaders(true, r); var t := Get(r.query, "token");
      && (t != "" ==> Get(h, "Authorization") == Bearer + t && Get(h, "Token") == t && BearerToken(h) == Some(t))
      && (t == "" ==> Get(h, "Authorization") == Get(r.headers, "Authorization"))
    ensures RequestHeaders(false, r) == r.headers
  {
    var h := RequestHeaders(true, r);
    var t := Get(r.query, "token");
    if t != "" {
      assert (Bearer + t)[..|Bearer|] == Bearer;
      assert (Bearer + t)[|Bearer|..] == t;
    }
  }

  /** Why verifyJWTAuth refused a request. */
  datatype AuthError =
    | MissingBearer
    | TokenRejected(cause: Option<Token.VerifyError>)
    | DeviceMismatch(request: string, token: string)

  /** verifyJWTAuth: Bearer credential, token verified with expiry enforced, device bound to the token. */
  function VerifyJWTAuth(at: Token.AuthToken, headers: map<string, string>,
                         decode: string -> Token.Unverified, now: nat): (r: Result<nat, AuthError>)
    ensures r.Ok? <==>
      && BearerToken(headers).Some?
      && Token.VerifyToken(Some(at), BearerToken(headers).value, [], decode, now).valid
      && Token.VerifyToken(Some(at), BearerToken(headers).value, [], decode, now).deviceId == Get(headers, "Device-Id")
    ensures r.Ok? ==> r.value == Token.VerifyToken(Some(at), BearerToken(headers).value, [], decode, now).userId
  {
    match BearerToken(headers)
    case None => Err(MissingBearer)
    case Some(t) =>
      // Without ignoreExpiry the corrected check and the one as written agree.
      var v := Token.VerifyTokenIntended(Some(at), t, [], decode, now);
      if v.err.Some? || !v.valid then Err(TokenRejected(v.err))
      else if Get(headers, "Device-Id") != v.deviceId then Err(DeviceMismatch(Get(headers, "Device-Id"), v.deviceId))
      else Ok(v.userId)
  }

  /**
   * A live token issued for a device admits exactly the requests that claim that device; any
   * other Device-Id is refused whatever the token.
   */
  lemma DeviceBinding(secret: string, userID: nat, deviceID: string, expiry: nat, issued: nat,
                      tokenString: string, decode: string -> Token.Unverified, now: nat,
                      headers: map<string, string>)
    requires decode(tokenString) == Token.GenerateTokenWithExpiry(Token.AuthToken(Some(secret)), userID, deviceID, expiry, issued)
    requires now < issued + expiry
    requires Get(headers, "Authorization") == Bearer + tokenString
    ensures VerifyJWTAuth(Token.AuthToken(Some(secret)), headers, decode, now) ==
      if Get(headers, "Device-Id") == deviceID then Ok(userID)
      else Err(DeviceMismatch(Get(headers, "Device-Id"), deviceID))
  {
    Token.GenerateThenVerify(secret, userID, deviceID, expiry, issued, tokenString, decode, now);
    assert (Bearer + tokenString)[..|Bearer|] == Bearer;
    assert (Bearer + tokenString)[|Bearer|..] == tokenString;
  }

  /** A credential without the Bearer scheme is refused before the token is looked at. */
  lemma MissingBearerRejected(at: Token.AuthToken, headers: map<string, string>,
                              decode: string -> Token.Unverified, now: nat)
    requires !HasPrefix(Get(headers, "Authorization"), Bearer)
    ensures VerifyJWTAuth(at, headers, decode, now) == Err(MissingBearer)
  {
  }

  /**
   * waitGatewayConnected, one poll per element: `arrivals[i]` is a bus stream attaching just
   * before poll i. The wait stops at the first poll that sees a stream; it fails when the
   * deadline leaves no poll at all.
   */
  function WaitFrom(stream: Option<StreamId>, arrivals: seq<Option<StreamId>>): (r: (bool, Option<StreamId>))
    ensures r.0 ==> r.1.Some?
  {
    if arrivals == [] then (false, stream)
    else
      var s := if arrivals[0].Some? then arrivals[0] else stream;
      if s.Some? then (true, s) else WaitFrom(s, arrivals[1..])
  }

  lemma {:induction false} WaitSucceedsIff(stream: Option<StreamId>, arrivals: seq<Option<StreamId>>)
    ensures WaitFrom(stream, arrivals).0 <==>
      |arrivals| > 0 && (stream.Some? || exists i :: 0 <= i < |arrivals| && arrivals[i].Some?)
    ensures !WaitFrom(stream, arrivals).0 ==> WaitFrom(stream, arrivals).1 == stream
    ensures stream.Some? && |arrivals| > 0 ==> WaitFrom(stream, arrivals).0
  {
    if arrivals != [] {
      var s := if arrivals[0].Some? then arrivals[0] else stream;
      if s.None? {
        WaitSucceedsIff(s, arrivals[1..]);
        if exists i :: 0 <= i < |arrivals| && arrivals[i].Some? {
          var i :| 0 <= i < |arrivals| && arrivals[i].Some?;
          assert arrivals[1..][i - 1] == arrivals[i];
        }
        if exists i :: 0 <= i < |arrivals| - 1 && arrivals[1..][i].Some? {
          var i :| 0 <= i < |arrivals| - 1 && arrivals[1..][i].Some?;
          assert arrivals[i + 1] == arrivals[1..][i];
        }
      }
    }
  }

  /** The session id: the Session-Id header when non-empty, else a freshly generated one. */
  function SessionIdFor(headers: map<string, string>, freshId: string): (sid: string)
    requires freshId != ""
    ensures sid != ""
    ensures Get(headers, "Session-Id") != "" ==> sid == Get(headers, "Session-Id")
    ensures Get(headers, "Session-Id") == "" ==> sid == freshId
  {
    if Get(headers, "Session-Id") != "" then Get(headers, "Session-Id") else freshId
  }

  /** The six headers session_open carries. */
  function SessionOpenHeaders(headers: map<string, string>, sid: string): (h: map<string, string>)
    ensures h.Keys == {"Device-Id", "Client-Id", "Session-Id", "Transport-Type", "Authorization", "User-Id"}
    ensures h["Session-Id"] == sid
    ensures forall k :: k in h && k != "Session-Id" ==> h[k] == Get(headers, k)
  {
    map["Device-Id" := Get(headers, "Device-Id"),
        "Client-Id" := Get(headers, "Client-Id"),
        "Session-Id" := sid,
        "Transport-Type" := Get(headers, "Transport-Type"),
        "Authorization" := Get(headers, "Authorization"),
        "User-Id" := Get(headers, "User-Id")]
  }

  /** How HandleWebSocket ends. */
  datatype Response =
    | Unauthorized(reason: AuthError)
    | Unavailable
    | UpgradeFailed
    | Upgraded(sessionId: string, conn: ConnId)

  /** What the bus's receive loop ended with. */
  datatype RecvEnd = Eof | RecvFailed(error: string)

  // ----- the server -----

  /** IMGatewayServer */
  class GatewayServer {
    const authToken: Token.AuthToken
    const browser: bool
    var conns: map<string, ConnId>
    var stream: Option<StreamId>
    var sent: seq<Sent>
    var writes: seq<Write>
    var closed: seq<ConnId>

    function View(): State
      reads this
    {
      State(conns, stream, sent, writes, closed)
    }

    /** NewIMGatewayServer: the token verifier holds the configured server token; nothing is connected. */
    constructor(serverToken: string, browser: bool)
      ensures authToken == Token.NewAuthToken(serverToken).0 && this.browser == browser
      ensures View() == State(map[], None, [], [], [])
    {
      authToken := Token.NewAuthToken(serverToken).0;
      this.browser := browser;
      conns := map[];
      stream := None;
      sent := [];
      writes := [];
      closed := [];
    }

    /** IsGatewayConnected */
    predicate IsGatewayConnected()
      reads this
    {
      stream.Some?
    }

    /** ActiveSessions: counts the registry by ranging over it. */
    method ActiveSessions() returns (count: nat)
      ensures count == |conns|
    {
      count := 0;
      var todo := conns.Keys;
      while todo != {}
        invariant todo <= conns.Keys
        invariant count + |todo| == |conns|
        decreases |todo|
      {
        var k :| k in todo;
        todo := todo - {k};
        count := count + 1;
      }
    }

    /** gatewaySend */
    method GatewaySend(msg: ImMessage)
      modifies this`sent
      ensures View() == Send(old(View()), msg)
    {
      if stream.Some? {
        sent := sent + [Sent(stream.value, msg)];
      }
    }

    /** messageGatewayHandler's store of its stream. */
    method AcceptStream(s: StreamId)
      modifies this`stream
      ensures View() == Accept(old(View()), s)
    {
      stream := Some(s);
    }

    /** forwardToClient */
    method ForwardToClient(msg: Option<ImMessage>)
      modifies this`conns, this`writes, this`closed
      ensures View() == Forward(old(View()), msg)
    {
      if msg.None? || msg.value.sessionId == "" || msg.value.sessionId !in conns {
        return;
      }
      var sid := msg.value.sessionId;
      var c := conns[sid];
      if msg.value.event == EventSessionClose {
        closed := closed + [c];
        conns := conns - {sid};
        return;
      }
      var mtype := TextMessage;
      if msg.value.messageType != 0 {
        mtype := msg.value.messageType;
      }
      writes := writes + [Write(c, mtype, msg.value.payload)];
    }

    /**
     * messageGatewayHandler: holds the new stream, forwards every envelope received and
     * returns when the receive fails; the stream is left in place.
     */
    method MessageGatewayHandler(s: StreamId, inbound: seq<ImMessage>, end: RecvEnd) returns (err: Option<string>)
      modifies this`stream, this`conns, this`writes, this`closed
      ensures View() == ForwardAll(Accept(old(View()), s), inbound)
      ensures stream == Some(s)
      ensures err == (if end.Eof? then None else Some(end.error))
    {
      AcceptStream(s);
      ghost var start := View();
      var i := 0;
      while i < |inbound|
        invariant 0 <= i <= |inbound|
        invariant View() == ForwardAll(start, inbound[..i])
      {
        assert inbound[..i + 1][..i] == inbound[..i];
        ForwardToClient(Some(inbound[i]));
        i := i + 1;
      }
      assert inbound[..|inbound|] == inbound;
      ForwardAllShrinks(start, inbound);
      err := if end.Eof? then None else Some(end.error);
    }

    /** waitGatewayConnected, with the bus attaching between polls as `arrivals` says. */
    method WaitGatewayConnected(arrivals: seq<Option<StreamId>>) returns (ok: bool)
      modifies this`stream
      ensures (ok, stream) == WaitFrom(old(stream), arrivals)
    {
      var i := 0;
      while i < |arrivals|
        invariant 0 <= i <= |arrivals|
        invariant WaitFrom(stream, arrivals[i..]) == WaitFrom(old(stream), arrivals)
      {
        assert arrivals[i..][1..] == arrivals[i + 1..];
        if arrivals[i].Some? {
          AcceptStream(arrivals[i].value);
        }
        if stream.Some? {
          return true;
        }
        i := i + 1;
      }
      return false;
    }

    /**
     * HandleWebSocket up to starting the read loop: translate browser parameters, admit, wait
     * for the bus, upgrade, pick the session id, store the session and announce it. A refused
     * request touches neither the registry nor the bus.
     */
    method HandleWebSocket(r: Request, decode: string -> Token.Unverified, now: nat,
                           arrivals: seq<Option<StreamId>>, upgraded: Option<ConnId>, freshId: string)
      returns (resp: Response)
      requires freshId != ""
      modifies this`stream, this`conns, this`sent
      ensures var h := RequestHeaders(browser, r);
              var auth := VerifyJWTAuth(authToken, h, decode, now);
              var w := WaitFrom(old(stream), arrivals);
        && (auth.Err? ==> resp == Unauthorized(auth.error) && View() == old(View()))
        && (auth.Ok? && !w.0 ==> resp == Unavailable && View() == old(View()))
        && (auth.Ok? && w.0 && upgraded.None? ==> resp == UpgradeFailed && View() == old(View()).(stream := w.1))
        && (auth.Ok? && w.0 && upgraded.Some? ==>
              var h2 := h["User-Id" := NatToString(auth.value)];
              var sid := SessionIdFor(h2, freshId);
              && resp == Upgraded(sid, upgraded.value)
              && View() == Open(old(View()).(stream := w.1), sid, upgraded.value, SessionOpenHeaders(h2, sid)))
    {
      var h := RequestHeaders(browser, r);
      var auth := VerifyJWTAuth(authToken, h, decode, now);
      if auth.Err? {
        return Unauthorized(auth.error);
      }
      h := h["User-Id" := NatToString(auth.value)];
      WaitSucceedsIff(stream, arrivals);
      var ok := WaitGatewayConnected(arrivals);
      if !ok {
        return Unavailable;
      }
      if upgraded.None? {
        return UpgradeFailed;
      }
      var conn := upgraded.value;
      var sid := SessionIdFor(h, freshId);
      conns := conns[sid := conn];
      GatewaySend(OpenMsg(sid, SessionOpenHeaders(h, sid)));
      resp := Upgraded(sid, conn);
    }

    /** The read loop's body: one client frame goes up as one data envelope. */
    method ClientFrame(sid: string, frame: Inbound)
      modifies this`sent
      ensures View() == Frame(old(View()), sid, frame.messageType, frame.data)
    {
      GatewaySend(DataMsg(sid, frame.messageType, frame.data));
    }

    /** The read loop's deferred teardown. */
    method ClientTeardown(sid: string, conn: ConnId)
      modifies this`conns, this`sent, this`closed
      ensures View() == Teardown(old(View()), sid, conn)
    {
      conns := conns - {sid};
      GatewaySend(CloseMsg(sid));
      closed := closed + [conn];
    }

    /** The read loop of one session: relay every frame read, then tear down when the read fails. */
    method ClientReadLoop(sid: string, conn: ConnId, frames: seq<Inbound>)
      modifies this`conns, this`sent, this`closed
      ensures View() == Teardown(FrameAll(old(View()), sid, frames), sid, conn)
    {
      ghost var start := View();
      var i := 0;
      while i < |frames|
        invariant 0 <= i <= |frames|
        invariant View() == FrameAll(start, sid, frames[..i])
      {
        assert frames[..i + 1][..i] == frames[..i];
        ClientFrame(sid, frames[i]);
        i := i + 1;
      }
      assert frames[..|frames|] == frames;
      ClientTeardown(sid, conn);
    }
  }
}
