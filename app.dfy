/**
 * The im-server application (im-server/main.go): it starts the bus listener and the WebSocket
 * server, answers health checks and shuts both down in order.
 */
module App {
  import opened Wrappers
  import opened Text
  import Configs
  import Gateway
  import Token

  // ----- health -----

  /** "degraded" exactly when a gateway server exists but no bus is connected. */
  function HealthStatus(present: bool, connected: bool): (status: string)
    ensures status == "degraded" <==> present && !connected
    ensures status == "ok" <==> !(present && !connected)
  {
    if present && !connected then "degraded" else "ok"
  }

  const BodyHead := "{\"status\":\""
  const BodyMid := "\",\"sessions\":"

  /** The JSON health body: {"status":"<status>","sessions":<n>}. */
  function HealthBody(status: string, sessions: nat): string
  {
    BodyHead + status + BodyMid + NatToString(sessions) + "}"
  }

  /** Reads a health body back into its status and session count. */
  function ParseHealthBody(body: string): Option<(string, nat)>
  {
    if !HasPrefix(body, BodyHead) || !HasSuffix(body, "}") || |body| < |BodyHead| + 1 then None
    else
      var parts := Split(body[|BodyHead|..|body| - 1], '"');
      if |parts| == 4 && parts[1] == "," && parts[2] == "sessions" && |parts[3]| >= 2
         && parts[3][0] == ':' && AllDigits(parts[3][1..])
      then Some((parts[0], ParseNat(parts[3][1..])))
      else None
  }

  lemma JoinFour(parts: seq<string>, sep: char)
    requires |parts| == 4
    ensures Join(parts, sep) == parts[0] + [sep] + parts[1] + [sep] + parts[2] + [sep] + parts[3]
  {
    assert parts[1..][1..] == parts[2..];
    assert parts[2..][1..] == parts[3..];
    assert Join(parts[3..], sep) == parts[3];
    assert Join(parts[2..], sep) == parts[2] + [sep] + parts[3];
    assert Join(parts[1..], sep) == parts[1] + [sep] + parts[2] + [sep] + parts[3];
  }

  lemma DigitsHaveNoQuote(digits: string)
    requires AllDigits(digits)
    ensures '"' !in digits
  {
    forall i | 0 <= i < |digits| ensures digits[i] != '"' { assert IsDigit(digits[i]); }
  }

  lemma Middle(a: string, b: string, c: string)
    ensures var s := a + b + c;
      HasPrefix(s, a) && HasSuffix(s, c) && |s| >= |a| + |c| && s[|a|..|s| - |c|] == b
  {
    var s := a + b + c;
    assert s[..|a|] == a;
    assert s[|s| - |c|..] == c;
    assert s[|a|..|s| - |c|] == b;
  }

  lemma HealthFieldsJoin(status: string, digits: string)
    ensures Join([status, ",", "sessions", ":" + digits], '"') == status + BodyMid + digits
  {
    var q: string := ['"'];
    assert BodyMid == q + "," + q + "sessions" + q + ":";
    JoinFour([status, ",", "sessions", ":" + digits], '"');
  }

  /** Between the fixed head and the closing brace, the body is the four '"'-separated fields. */
  lemma HealthBodyFields(status: string, sessions: nat)
    ensures var body := HealthBody(status, sessions);
      && HasPrefix(body, BodyHead) && HasSuffix(body, "}") && |body| >= |BodyHead| + 1
      && body[|BodyHead|..|body| - 1] == Join([status, ",", "sessions", ":" + NatToString(sessions)], '"')
  {
    var digits := NatToString(sessions);
    var inner := status + BodyMid + digits;
    assert HealthBody(status, sessions) == BodyHead + inner + "}";
    Middle(BodyHead, inner, "}");
    HealthFieldsJoin(status, digits);
  }

  /** The body carries the status and the session count recoverably. */
  lemma HealthBodyRoundTrip(status: string, sessions: nat)
    requires '"' !in status
    ensures ParseHealthBody(HealthBody(status, sessions)) == Some((status, sessions))
  {
    var digits := NatToString(sessions);
    var parts := [status, ",", "sessions", ":" + digits];
    HealthBodyFields(status, sessions);
    DigitsHaveNoQuote(digits);
    assert '"' !in ":" + digits;
    SplitJoin(parts, '"');
    assert (":" + digits)[1..] == digits;
    ParseNatToString(sessions);
  }

  // ----- routing -----

  datatype Handler = WebSocketHandler | HealthHandler

  /** The ServeMux of start(): "/health" exactly goes to the health check, every other path to the WebSocket entry. */
  function Route(path: string): (h: Handler)
    ensures h == HealthHandler <==> path == "/health"
  {
    if path == "/health" then HealthHandler else WebSocketHandler
  }

  // ----- the application -----

  datatype HttpServer = HttpServer(addr: string)

  /** The shutdown calls stop() makes, in order. */
  datatype Shutdown = HttpShutdown | GrpcStop

  /** Application, after init has loaded its configuration. */
  class Application {
    const config: Configs.ConfigValues
    var grpc: Gateway.GatewayServer?
    var http: Option<HttpServer>
    var shutdowns: seq<Shutdown>

    constructor(config: Configs.ConfigValues)
      ensures this.config == config && grpc == null && http.None? && shutdowns == []
    {
      this.config := config;
      grpc := null;
      http := None;
      shutdowns := [];
    }

    /**
     * start: listen for the bus on the configured gRPC address; if that fails nothing is
     * created. Otherwise a fresh gateway server with the configured token and browser mode is
     * started and the WebSocket server is set up on its own address.
     */
    method Start(listenOk: bool) returns (grpcAddr: string, err: Option<string>)
      modifies this`grpc, this`http
      ensures grpcAddr == Configs.ListenAddress(config.grpcIP, config.grpcPort)
      ensures !listenOk ==> err.Some? && grpc == old(grpc) && http == old(http)
      ensures listenOk ==>
        && err.None?
        && grpc != null && fresh(grpc)
        && grpc.authToken == Token.NewAuthToken(config.serverToken).0 && grpc.browser == config.grpcBrowser
        && grpc.View() == Gateway.State(map[], None, [], [], [])
        && http == Some(HttpServer(Configs.ListenAddress(config.wsIP, config.wsPort)))
    {
      grpcAddr := Configs.ListenAddress(config.grpcIP, config.grpcPort);
      if !listenOk {
        return grpcAddr, Some("listen " + grpcAddr);
      }
      grpc := new Gateway.GatewayServer(config.serverToken, config.grpcBrowser);
      http := Some(HttpServer(Configs.ListenAddress(config.wsIP, config.wsPort)));
      err := None;
    }

    /** handleHealth: reads the gateway's state and changes nothing. */
    method HandleHealth() returns (contentType: string, body: string)
      requires grpc != null
      ensures contentType == "application/json"
      ensures body == HealthBody(HealthStatus(true, grpc.IsGatewayConnected()), |grpc.conns|)
      ensures ParseHealthBody(body) == Some((HealthStatus(true, grpc.IsGatewayConnected()), |grpc.conns|))
    {
      var status := "ok";
      if !grpc.IsGatewayConnected() {
        status := "degraded";
      }
      var n := grpc.ActiveSessions();
      contentType := "application/json";
      body := HealthBody(status, n);
      HealthBodyRoundTrip(status, n);
    }

    /** stop: the HTTP server is shut down before the bus server, each only when it exists. */
    method Stop()
      modifies this`shutdowns
      ensures shutdowns == old(shutdowns) + (if http.Some? then [HttpShutdown] else [])
                                          + (if grpc != null then [GrpcStop] else [])
    {
      if http.Some? {
        shutdowns := shutdowns + [HttpShutdown];
      }
      if grpc != null {
        shutdowns := shutdowns + [GrpcStop];
      }
    }
  }
}
