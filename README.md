# TLS listener lifecycle (tide-openssl `TlsListener`)

This project models the lifecycle of `TlsListener` from src/tls_listener.rs,
a listener for the tide web framework that terminates TLS in front of an HTTP
server. The listener owns two pieces of lazily resolved state and runs one
loop:

- its TLS configuration (`TlsListenerConfig`): certificate and key paths, a
  rustls `ServerConfig`, or an already built `TlsAcceptor`. `configure` takes
  it out with `std::mem::take`, turns paths or a server configuration into an
  acceptor, stores the acceptor back and returns it;
- its connection target (`TcpConnection`): addresses to bind, or a bound
  `TcpListener`. `connect` binds at most once and then always hands back the
  same listener;
- the accept loop of `listen`: after `configure` and `connect` succeed, every
  accepted stream gets one spawned connection handler; a transient accept error
  (connection refused, aborted or reset) is retried at once; any other error is
  retried after a 500 ms pause. The loop returns `Ok(())` when the stream of
  incoming connections ends, and no accept error ends it.

Files:

- `rust_std.dfy` (module `RustStd`): `Option`, `Result`, `io::ErrorKind`,
  `io::Error`, and `Failure`, which is either an `io::Error` or a panic.
- `collaborators.dfy` (module `Collaborators`): abstract values for
  certificates, keys, rustls configurations, acceptors, sockets and streams,
  and `Env`, a record of functions standing for every foreign call the
  listener makes: opening a file, reading and PEM-parsing an opened file,
  `set_single_cert`, `TcpListener::bind`, and the finite sequence that `incoming()` yields.
- `tls_config.dfy` (module `TlsConfig`): the configuration variants,
  `load_certs`/`load_keys` with their error mapping, the `Paths` arm of
  `configure`, and `ResolveConfig`, the specification of one `configure` call.
- `accepting.dfy` (module `Accepting`): `is_transient_error`, the trace of
  loop effects (`Spawned` handlers and `Paused` sleeps), its specification
  `Dispatch`, the loop itself (`AcceptLoop`) and the lemmas about it.
- `tls_listener.dfy` (module `TlsListenerCore`): the connection target,
  `ResolveConnection` (the specification of `connect`) and the class
  `TlsListener`. Its `connection` and `config` fields are updated in place by
  `Configure`, `Connect` and `Listen`.

Notes on what the code does:

- Configuration errors are `io::Error` values, not a dedicated error type. A
  file that cannot be opened reports the open error unchanged. An opened file
  that cannot be read or parsed reports `InvalidInput` with "invalid cert" or
  "invalid key". A certificate/key pair that rustls rejects reports
  `InvalidInput` with rustls's message. Anything else that is not resolvable reports `Other` with "could not
  configure tlslistener".
- A key file that parses to no PKCS#8 key at all makes `keys.remove(0)`
  panic. The model keeps this as a distinct failure, `Panic`.
- A failed `configure` from paths leaves the configuration at its default
  (`Unconfigured`), because `mem::take` removed the paths before loading. A
  later call then fails with "could not configure tlslistener"
  (`ResolveConfigFailureIsFinal`).
- The accept loop is not infinite: it returns `Ok(())` once `incoming` ends.
- The code applies no socket options (no-delay, time-to-live) to accepted
  streams.

`TlsListenerConfig`'s `Default` implementation is defined in a file that is
not part of this model. The model writes the default as the variant
`Unconfigured` and assumes that it is not an `Acceptor`.

## Model

| member | source | states |
|---|---|---|
| `TlsConfig.LoadCerts` | src/tls_listener.rs:167-170 | an open failure is reported unchanged; a read or parse failure of an opened file is `InvalidInput` "invalid cert"; success carries exactly the parsed certificates |
| `TlsConfig.LoadKeys` | src/tls_listener.rs:172-175 | an open failure is reported unchanged; a read or parse failure of an opened file is `InvalidInput` "invalid key"; success carries exactly the parsed keys |
| `TlsConfig.AcceptorFromPaths` | src/tls_listener.rs:35-44 | the certificate error comes first and then the key error, each unchanged; an empty key list panics, and nothing else does; a rejected pair is `InvalidInput` with rustls's message; success happens exactly when every step succeeds, and the acceptor then serves the whole chain with the first key |
| `TlsConfig.ResolveConfig` | src/tls_listener.rs:33-61 | success happens exactly when the stored configuration is an acceptor, and the acceptor returned is the stored one; every failure leaves the default; paths and server configurations never survive a call; an acceptor is kept and returned again; a server configuration becomes an acceptor over it; the default fails with `Other` "could not configure tlslistener" |
| `TlsConfig.ResolveConfigIdempotent` | src/tls_listener.rs:50-54 | after a successful configure, a second call leaves the state unchanged and returns the same acceptor, whatever the environment |
| `TlsConfig.ResolveConfigFailureIsFinal` | src/tls_listener.rs:34-60 | after a failed configure, a second call fails with "could not configure tlslistener" |
| `TlsListenerCore.TlsListener.Configure` | src/tls_listener.rs:33-61 | the in-place update (take, rebuild, store back, then check) leaves the configuration and returns the result that `ResolveConfig` specifies |
| `TlsListenerCore.ResolveConnection` | src/tls_listener.rs:63-74 | success happens exactly when the target is bound, and returns the bound listener; a bound target is returned as it is and is not rebound; from addresses the result is that of `bind`, and a failed bind keeps the addresses; the only change ever made is from addresses to bound |
| `TlsListenerCore.ResolveConnectionIdempotent` | src/tls_listener.rs:63-70 | after a successful connect, a second call returns the same listener without binding, whatever binding would do |
| `TlsListenerCore.TlsListener.Connect` | src/tls_listener.rs:63-74 | the in-place update leaves the target and returns the result that `ResolveConnection` specifies; the `unreachable!()` arm is proved unreachable |
| `TlsListenerCore.TlsListener.Listen` | src/tls_listener.rs:126-149 | configure runs first, and its failure returns before any bind or accept; a bind failure returns before any accept; otherwise the trace is `Dispatch` of the bound listener's incoming results with the configured acceptor, and the result is `Ok(())`; `Ok` implies a stored acceptor and a bound target |
| `TlsListenerCore.TlsListener.constructor` | src/tls_listener.rs:26-28 | a new listener holds the given connection target and configuration |
| `Accepting.IsTransientError` | src/tls_listener.rs:152-159 | true exactly for `ConnectionRefused`, `ConnectionAborted` and `ConnectionReset` |
| `Accepting.AcceptLoop` | src/tls_listener.rs:132-146 | the loop's trace over the incoming results equals `Dispatch` of those results |
| `Accepting.DispatchSpawnsEachAcceptedStream` | src/tls_listener.rs:142-144 | the spawned streams are exactly the accepted streams, in order, so spawns equal `Ok` entries in number; every handler gets the listener's acceptor |
| `Accepting.DispatchPausesOncePerPersistentError` | src/tls_listener.rs:134-140 | there is one pause per accept error that is not transient, each of 500 ms; transient errors add none |
| `Accepting.DispatchAppend` | src/tls_listener.rs:132-146 | no result ends the loop: the trace of `first + rest` is the trace of `first` followed by that of `rest` |
| `Accepting.TransientErrorsAreSilent` | src/tls_listener.rs:134 | a run of transient errors spawns nothing and does not pause |
| `Accepting.RetryAfterTransientErrors` | src/tls_listener.rs:132-144 | any number of transient errors followed by one accepted stream give exactly one spawn and no pause |
| `Accepting.PersistentErrorPausesThenContinues` | src/tls_listener.rs:135-140 | an error that is not transient adds one 500 ms pause, and everything after it is still handled |

## Left out

- `handle_tls` (src/tls_listener.rs:77-109): the spawned task, the rustls handshake, the HTTP codec, setting the `https` scheme and the peer and local addresses. It is concurrent and runs in foreign libraries. The model records only the spawn event and the stream and acceptor it is given.
- File opening, reading and PEM parsing, rustls `ServerConfig` construction and `set_single_cert`. These are foreign calls, and they are the oracle functions of `Env`. The fresh configuration's `NoClientAuth` verifier is not represented.
- `TcpListener::bind`, multi-address binding and `listener.incoming()`. These are operating-system I/O. `bind` is an oracle, and `incoming` is a finite sequence of results. An endless stream of connections is covered through its finite prefixes (`DispatchAppend`).
- `task::sleep`: the model records the 500 ms delay as a `Paused` event and does not model time.
- Logging calls: they have no effect on behaviour.
- Panics are modelled as a returned `Panic` failure rather than as unwinding.
- `io::ErrorKind` is non-exhaustive in Rust; the model lists the stable kinds of the Rust release this code builds with (about 1.47), and no other kind is transient.
- `TlsListener::build`, the `ToListener` impls (src/tls_listener.rs:111-123) and the `Display` impl (src/tls_listener.rs:161-165). They forward to the builder and to `TcpConnection`'s formatting, and tls_listener_builder.rs and tcp_connection.rs are not part of this model.
- src/lib.rs: module declarations and a documentation example only.
- Cancellation of `listen` by its owner: the model's loop ends only when the incoming sequence ends.
