/** `TlsListener` of src/tls_listener.rs: its connection target, its TLS
    configuration, and the three steps of `listen` (configure, connect, accept). */
module TlsListenerCore {
  import opened RustStd
  import opened Collaborators
  import opened TlsConfig
  import opened Accepting

  /** `TcpConnection`: addresses still to bind, or the bound listener. */
  datatype TcpConnection = Addrs(addrs: seq<SocketAddr>) | Connected(listener: TcpListener)

  /** What one call of `connect` does to a connection target: the new target
      and what the call returns. */
  datatype ConnectionResolution = ConnectionResolution(connection: TcpConnection, result: IoResult<TcpListener>)

  /** The specification of `connect`. */
  function ResolveConnection(connection: TcpConnection, env: Env): (res: ConnectionResolution)
    // The call succeeds exactly when the target is bound, and returns the bound listener.
    ensures res.result.Ok? <==> res.connection.Connected?
    ensures res.result.Ok? ==> res.result.value == res.connection.listener
    // A bound listener is returned as it is and never rebound.
    ensures connection.Connected? ==> res == ConnectionResolution(connection, Ok(connection.listener))
    // From addresses, the outcome is that of binding them; a failed bind keeps the addresses.
    ensures connection.Addrs? ==> res.result == env.bind(connection.addrs)
    ensures res.result.Err? ==> res.connection == connection
    // The only change ever made is from addresses to bound.
    ensures res.connection != connection ==> connection.Addrs? && res.connection.Connected?
  {
    match connection
    case Connected(listener) => ConnectionResolution(connection, Ok(listener))
    case Addrs(addrs) =>
      match env.bind(addrs)
      case Err(e) => ConnectionResolution(connection, Err(e))
      case Ok(listener) => ConnectionResolution(Connected(listener), Ok(listener))
  }

  /** Once `connect` has succeeded, calling it again returns the same
      listener without binding again, whatever binding would do by then. */
  lemma ResolveConnectionIdempotent(connection: TcpConnection, env: Env, later: Env)
    requires ResolveConnection(connection, env).result.Ok?
    ensures ResolveConnection(ResolveConnection(connection, env).connection, later) == ResolveConnection(connection, env)
  {
  }

  class TlsListener {
    var connection: TcpConnection
    var config: TlsListenerConfig

    /** `TlsListener::new`. */
    constructor (connection: TcpConnection, config: TlsListenerConfig)
      ensures this.connection == connection && this.config == config
    {
      this.connection := connection;
      this.config := config;
    }

    /** `configure`: take the configuration out (leaving the default), build
        an acceptor from paths or a server configuration, put the result back,
        and return the acceptor if there is one. */
    method Configure(env: Env) returns (r: Outcome<TlsAcceptor>)
      modifies this`config
      ensures ConfigResolution(config, r) == ResolveConfig(old(config), env)
    {
      var taken := config;
      config := Unconfigured;
      var next: TlsListenerConfig;
      match taken {
        case Paths(cert, key) =>
          var built := AcceptorFromPaths(env, cert, key);
          if built.Err? {
            r := built;
            return;
          }
          next := Acceptor(built.value);
        case ServerConfig(serverConfig) =>
          next := Acceptor(TlsAcceptor(serverConfig));
        case Acceptor(_) =>
          next := taken;
        case Unconfigured =>
          next := taken;
      }
      config := next;
      if config.Acceptor? {
        r := Ok(config.acceptor);
      } else {
        r := Err(IoFailure(NotConfigured));
      }
    }

    /** `connect`: bind the addresses if they are not bound yet, then return
        the bound listener. */
    method Connect(env: Env) returns (r: IoResult<TcpListener>)
      modifies this`connection
      ensures ConnectionResolution(connection, r) == ResolveConnection(old(connection), env)
    {
      if connection.Addrs? {
        var bound := env.bind(connection.addrs);
        if bound.Err? {
          r := Err(bound.error);
          return;
        }
        connection := Connected(bound.value);
      }
      // The `unreachable!()` arm is never taken.
      assert connection.Connected?;
      r := Ok(connection.listener);
    }

    /** `Listener::listen`: configure, then connect, each returning early on
        failure, then run the accept loop until `incoming` ends. Returns the
        result and the trace of spawned handlers and pauses. */
    method Listen(env: Env) returns (r: Outcome<()>, trace: seq<Event>)
      modifies this
      ensures config == ResolveConfig(old(config), env).config
      // A configuration failure returns before binding or accepting anything.
      ensures var configured := ResolveConfig(old(config), env).result;
              configured.Err? ==> r == Err(configured.error) && connection == old(connection) && trace == []
      // A bind failure returns before accepting anything.
      ensures var configured, bound := ResolveConfig(old(config), env).result, ResolveConnection(old(connection), env);
              configured.Ok? ==>
                connection == bound.connection &&
                (bound.result.Err? ==> r == Err(IoFailure(bound.result.error)) && trace == [])
      // Otherwise every result of the bound listener's `incoming` is handled, and the call returns `Ok(())`.
      ensures var configured, bound := ResolveConfig(old(config), env).result, ResolveConnection(old(connection), env);
              configured.Ok? && bound.result.Ok? ==>
                r == Ok(()) && trace == Dispatch(env.incoming(bound.result.value), configured.value)
      ensures r.Ok? ==> config.Acceptor? && connection.Connected?
    {
      trace := [];
      var configured := Configure(env);
      if configured.Err? {
        r := Err(configured.error);
        return;
      }
      var bound := Connect(env);
      if bound.Err? {
        r := Err(IoFailure(bound.error));
        return;
      }
      trace := AcceptLoop(env.incoming(bound.value), configured.value);
      r := Ok(());
    }
  }
}
