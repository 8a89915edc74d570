/** The listener's TLS configuration and how it is resolved, once, into an
    acceptor (`TlsListener::configure`, `load_certs` and `load_keys` in
    src/tls_listener.rs). */
module TlsConfig {
  import opened RustStd
  import opened Collaborators

  /** `TlsListenerConfig`. Its `Default` value, which `std::mem::take` leaves
      behind, is `Unconfigured`; the model assumes that default is not an
      `Acceptor`. */
  datatype TlsListenerConfig =
    | Paths(cert: Path, key: Path)
    | ServerConfig(serverConfig: TlsServerConfig)
    | Acceptor(acceptor: TlsAcceptor)
    | Unconfigured

  const InvalidCert := IoError(InvalidInput, "invalid cert")
  const InvalidKey := IoError(InvalidInput, "invalid key")
  const NotConfigured := IoError(Other, "could not configure tlslistener")

  /** The panic of `Vec::remove(0)` on an empty vector. */
  const EmptyKeyListPanic := "removal index (is 0) should be < len (is 0)"

  /** `load_certs`: a file that cannot be opened reports the open error
      unchanged; an opened file that cannot be read or parsed reports
      "invalid cert". */
  function LoadCerts(env: Env, path: Path): (r: IoResult<seq<Certificate>>)
    ensures env.open(path).Err? ==> r == Err(env.open(path).error)
    ensures env.open(path).Ok? ==> (r.Ok? <==> env.pemCerts(env.open(path).value).Ok?)
    ensures env.open(path).Ok? && r.Err? ==> r.error == InvalidCert
    ensures r.Ok? ==> env.open(path).Ok? && r.value == env.pemCerts(env.open(path).value).value
  {
    match env.open(path)
    case Err(e) => Err(e)
    case Ok(file) =>
      match env.pemCerts(file)
      case Err(_) => Err(InvalidCert)
      case Ok(certs) => Ok(certs)
  }

  /** `load_keys`: as `LoadCerts`, with PKCS#8 keys and "invalid key"
      for a read or parse failure. */
  function LoadKeys(env: Env, path: Path): (r: IoResult<seq<PrivateKey>>)
    ensures env.open(path).Err? ==> r == Err(env.open(path).error)
    ensures env.open(path).Ok? ==> (r.Ok? <==> env.pemKeys(env.open(path).value).Ok?)
    ensures env.open(path).Ok? && r.Err? ==> r.error == InvalidKey
    ensures r.Ok? ==> env.open(path).Ok? && r.value == env.pemKeys(env.open(path).value).value
  {
    match env.open(path)
    case Err(e) => Err(e)
    case Ok(file) =>
      match env.pemKeys(file)
      case Err(_) => Err(InvalidKey)
      case Ok(keys) => Ok(keys)
  }

  /** The `Paths` arm of `configure`: load the chain, load the keys, install
      the chain with the FIRST key in a fresh server configuration that asks
      no client certificate, and wrap it in an acceptor. Each `?` returns
      early with the first failure. */
  function AcceptorFromPaths(env: Env, cert: Path, key: Path): (r: Outcome<TlsAcceptor>)
    // The certificate file is read first; if it fails, the key file is never examined.
    ensures LoadCerts(env, cert).Err? ==> r == Err(IoFailure(LoadCerts(env, cert).error))
    ensures LoadCerts(env, cert).Ok? && LoadKeys(env, key).Err? ==>
              r == Err(IoFailure(LoadKeys(env, key).error))
    // An empty key file makes `keys.remove(0)` panic.
    ensures (r.Err? && r.error.Panic?) <==> LoadCerts(env, cert).Ok? && LoadKeys(env, key) == Ok([])
    // rustls rejecting the pair is an `InvalidInput` error carrying rustls's message.
    ensures var certs, keys := LoadCerts(env, cert), LoadKeys(env, key);
            certs.Ok? && keys.Ok? && |keys.value| > 0 && env.setSingleCert(certs.value, keys.value[0]).Err? ==>
              r == Err(IoFailure(IoError(InvalidInput, env.setSingleCert(certs.value, keys.value[0]).error.message)))
    // Success exactly when every step succeeds, and the acceptor serves the whole chain with the first key.
    ensures var certs, keys := LoadCerts(env, cert), LoadKeys(env, key);
            r.Ok? <==> certs.Ok? && keys.Ok? && |keys.value| > 0 && env.setSingleCert(certs.value, keys.value[0]).Ok?
    ensures r.Ok? ==> r.value.config == TlsServerConfig(LoadCerts(env, cert).value, Some(LoadKeys(env, key).value[0]))
  {
    match LoadCerts(env, cert)
    case Err(e) => Err(IoFailure(e))
    case Ok(certs) =>
      match LoadKeys(env, key)
      case Err(e) => Err(IoFailure(e))
      case Ok(keys) =>
        if |keys| == 0 then Err(Panic(EmptyKeyListPanic))
        else
          match env.setSingleCert(certs, keys[0])
          case Err(tlsError) => Err(IoFailure(IoError(InvalidInput, tlsError.message)))
          case Ok(_) => Ok(TlsAcceptor(TlsServerConfig(certs, Some(keys[0]))))
  }

  /** What one call of `configure` does to a configuration: the new
      configuration and what the call returns. */
  datatype ConfigResolution = ConfigResolution(config: TlsListenerConfig, result: Outcome<TlsAcceptor>)

  /** The specification of `configure`. */
  function ResolveConfig(config: TlsListenerConfig, env: Env): (res: ConfigResolution)
    // The call succeeds exactly when the stored configuration is an acceptor, and returns that acceptor.
    ensures res.result.Ok? <==> res.config.Acceptor?
    ensures res.result.Ok? ==> res.result.value == res.config.acceptor
    // Every failure leaves the default behind (paths are consumed by `mem::take` even when loading fails).
    ensures res.result.Err? ==> res.config == Unconfigured
    // Pending inputs never survive a call.
    ensures !res.config.Paths? && !res.config.ServerConfig?
    // An acceptor is kept as it is and returned again.
    ensures config.Acceptor? ==> res == ConfigResolution(config, Ok(config.acceptor))
    ensures config.ServerConfig? ==> res.result == Ok(TlsAcceptor(config.serverConfig))
    ensures config.Paths? ==> res.result == AcceptorFromPaths(env, config.cert, config.key)
    ensures config.Unconfigured? ==> res.result == Err(IoFailure(NotConfigured))
  {
    match config
    case Paths(cert, key) =>
      var built := AcceptorFromPaths(env, cert, key);
      if built.Ok? then ConfigResolution(Acceptor(built.value), built)
      else ConfigResolution(Unconfigured, built)
    case ServerConfig(serverConfig) =>
      var acceptor := TlsAcceptor(serverConfig);
      ConfigResolution(Acceptor(acceptor), Ok(acceptor))
    case Acceptor(acceptor) =>
      ConfigResolution(config, Ok(acceptor))
    case Unconfigured =>
      ConfigResolution(Unconfigured, Err(IoFailure(NotConfigured)))
  }

  /** Once `configure` has succeeded, calling it again changes nothing and
      returns the same acceptor, whatever the file system holds by then. */
  lemma ResolveConfigIdempotent(config: TlsListenerConfig, env: Env, later: Env)
    requires ResolveConfig(config, env).result.Ok?
    ensures ResolveConfig(ResolveConfig(config, env).config, later) == ResolveConfig(config, env)
  {
  }

  /** A failed `configure` cannot be retried: the state it leaves fails again
      with "could not configure tlslistener". */
  lemma ResolveConfigFailureIsFinal(config: TlsListenerConfig, env: Env, later: Env)
    requires ResolveConfig(config, env).result.Err?
    ensures ResolveConfig(ResolveConfig(config, env).config, later).result == Err(IoFailure(NotConfigured))
  {
  }
}
