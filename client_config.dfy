/** The fixed settings of the pooled HTTP client: pool caps, keep-alive
    default, timeouts and the idle-connection monitor's schedule. Times are
    in milliseconds. */
module ClientConfig {
  import opened JavaLang

  // Connection pool caps
  const MaxRouteConnections: nat := 40
  const MaxTotalConnections: nat := 40
  const MaxLocalhostConnections: nat := 80

  // Keep-alive used when a response names no timeout
  const DefaultKeepAliveTime: int := 20 * 1000

  // Timeouts: establishing a connection, leasing one from the pool, waiting for data
  const ConnectionTimeout: int := 30 * 1000
  const RequestTimeout: int := 30 * 1000
  const SocketTimeout: int := 60 * 1000

  // Idle-connection monitor: how long a connection may sit idle, and the
  // fixed delay between two sweeps on a scheduler of five threads
  const IdleConnectionWaitTime: int := 30 * 1000
  const IdleMonitorDelay: int := 20000
  const SchedulerPoolSize: nat := 5

  /** The configured values, in milliseconds and connections. */
  lemma ConfiguredValues()
    ensures DefaultKeepAliveTime == 20000
    ensures ConnectionTimeout == 30000 && RequestTimeout == 30000
    ensures SocketTimeout == 60000 && IdleConnectionWaitTime == 30000
    ensures IdleMonitorDelay == 20000 && SchedulerPoolSize == 5
    ensures MaxLocalhostConnections > MaxTotalConnections == MaxRouteConnections
  {
  }

  // ---------------------------------------------------------------------
  // Per-route caps
  // ---------------------------------------------------------------------

  /** A direct route to a target host. Host names are kept in lower case, as
      the HTTP client compares them. */
  datatype Route = Route(scheme: string, host: string, port: int)

  function AsciiLower(c: char): char {
    if 'A' <= c <= 'Z' then (c as int + 32) as char else c
  }

  predicate IsAscii(s: string) {
    forall i :: 0 <= i < |s| ==> s[i] as int < 128
  }

  /** `new HttpRoute(new HttpHost(hostname, port))`: the scheme defaults to
      `http` and the host name is taken as given, in lower case. */
  function DirectRoute(hostname: string, port: int): (r: Route)
    ensures r.scheme == "http" && r.port == port && |r.host| == |hostname|
    ensures forall i :: 0 <= i < |hostname| ==> r.host[i] == AsciiLower(hostname[i])
  {
    Route("http", seq(|hostname|, i requires 0 <= i < |hostname| => AsciiLower(hostname[i])), port)
  }

  /** Two ASCII host names give the same route on a port exactly when they
      are equal ignoring case. */
  lemma {:induction false} DirectRouteIgnoresCase(h1: string, h2: string, port: int)
    requires IsAscii(h1) && IsAscii(h2)
    ensures DirectRoute(h1, port) == DirectRoute(h2, port) <==> EqualsIgnoreCase(h1, h2)
  {
    var r1, r2 := DirectRoute(h1, port), DirectRoute(h2, port);
    if EqualsIgnoreCase(h1, h2) {
      forall i | 0 <= i < |h1| ensures r1.host[i] == r2.host[i] {
        assert Fold(h1[i]) == Fold(h2[i]);
      }
      assert r1.host == r2.host;
    }
    if r1 == r2 {
      forall i | 0 <= i < |h1| ensures Fold(h1[i]) == Fold(h2[i]) {
        assert r1.host[i] == r2.host[i];
      }
    }
  }

  /** The route the pool configuration raises the cap for, as written: the
      string passed as the host name also holds the scheme. */
  const LocalhostOverrideAsWritten: Route := DirectRoute("http://localhost", 8080)

  /** The per-route cap the pool is configured with, as written. */
  function ConfiguredMaxPerRoute(route: Route): (cap: nat)
    ensures cap == MaxLocalhostConnections || cap == MaxRouteConnections
    ensures cap == MaxLocalhostConnections <==> route == LocalhostOverrideAsWritten
  {
    if route == LocalhostOverrideAsWritten then MaxLocalhostConnections else MaxRouteConnections
  }

  /** As written, no route whose host name holds no colon gets the raised cap,
      so neither does a request to localhost:8080, whatever its letter case. */
  lemma {:induction false} LocalhostOverrideMissesLocalhost(hostname: string, port: int)
    ensures LocalhostOverrideAsWritten.host == "http://localhost"
    ensures (forall i :: 0 <= i < |hostname| ==> hostname[i] != ':') ==>
              ConfiguredMaxPerRoute(DirectRoute(hostname, port)) == MaxRouteConnections
    ensures ConfiguredMaxPerRoute(DirectRoute("localhost", 8080)) == MaxRouteConnections
  {
    var r := DirectRoute(hostname, port);
    if forall i :: 0 <= i < |hostname| ==> hostname[i] != ':' {
      if |hostname| == |LocalhostOverrideAsWritten.host| {
        assert r.host[4] != ':' && LocalhostOverrideAsWritten.host[4] == ':';
      }
      assert r != LocalhostOverrideAsWritten;
    }
    var l := DirectRoute("localhost", 8080);
    assert |l.host| != |LocalhostOverrideAsWritten.host|;
  }

  /** The route the configuration means to raise the cap for. */
  const LocalhostRoute: Route := DirectRoute("localhost", 8080)

  /** The per-route cap with the localhost override applied to localhost:8080. */
  function MaxPerRoute(route: Route): (cap: nat)
    ensures cap == MaxLocalhostConnections || cap == MaxRouteConnections
    ensures cap == MaxLocalhostConnections <==> route == LocalhostRoute
  {
    if route == LocalhostRoute then MaxLocalhostConnections else MaxRouteConnections
  }

  /** A direct route to an ASCII host name gets the raised cap exactly when
      the port is 8080 and the name is `localhost` in any letter case; every
      other such route gets the default. The raised cap is above the total
      cap, so that total is what bounds localhost in the end. */
  lemma {:induction false} MaxPerRouteLocalhost(hostname: string, port: int)
    requires IsAscii(hostname)
    ensures MaxPerRoute(DirectRoute(hostname, port)) == MaxLocalhostConnections <==>
              port == 8080 && EqualsIgnoreCase(hostname, "localhost")
    ensures !(port == 8080 && EqualsIgnoreCase(hostname, "localhost")) ==>
              MaxPerRoute(DirectRoute(hostname, port)) == MaxRouteConnections
    ensures MaxPerRoute(LocalhostRoute) > MaxTotalConnections
  {
    DirectRouteIgnoresCase(hostname, "localhost", 8080);
  }
}
