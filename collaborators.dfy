/** The foreign code the listener calls: the file system, the PEM parser and
    `ServerConfig` of rustls, `async_tls::TlsAcceptor`, and the sockets of
    async-std. Their values are abstract records, and each call the listener
    makes is a function field of `Env`, so that every property of the model
    holds for whatever those calls return. */
module Collaborators {
  import opened RustStd

  type Path = string

  /** A DER-encoded certificate, `rustls::Certificate`. */
  datatype Certificate = Certificate(der: seq<bv8>)

  /** A DER-encoded private key, `rustls::PrivateKey`. */
  datatype PrivateKey = PrivateKey(der: seq<bv8>)

  /** `rustls::TLSError`, reduced to its message. */
  datatype TlsError = TlsError(message: string)

  /** `rustls::ServerConfig`: the certificate chain it serves and the private
      key that signs for it (`None` before `set_single_cert`). */
  datatype TlsServerConfig = TlsServerConfig(certChain: seq<Certificate>, key: Option<PrivateKey>)

  /** `async_tls::TlsAcceptor`: a shared handle on a server configuration.
      Cloning the handle gives an equal value. */
  datatype TlsAcceptor = TlsAcceptor(config: TlsServerConfig)

  /** A file opened by `File::open`, not yet read. */
  datatype File = File(path: Path, handle: nat)

  datatype SocketAddr = SocketAddr(ip: seq<bv8>, port: bv16)

  /** A bound `async_std::net::TcpListener`. */
  datatype TcpListener = TcpListener(localAddr: SocketAddr)

  /** An accepted `async_std::net::TcpStream`. */
  datatype TcpStream = TcpStream(localAddr: SocketAddr, peerAddr: SocketAddr)

  /** The outside world, as seen by the listener.
      - `open`: `File::open` alone;
      - `pemCerts`, `pemKeys`: `rustls::internal::pemfile::{certs, pkcs8_private_keys}`
        over a `BufReader` on the opened file; they cover both reading and
        parsing, and any failure of either is their `Err(())`;
      - `setSingleCert`: `ServerConfig::set_single_cert` on a fresh configuration;
      - `bind`: `TcpListener::bind` over the listener's addresses;
      - `incoming`: the finite sequence of results that `listener.incoming()` yields
        before it ends. */
  datatype Env = Env(
    open: Path -> IoResult<File>,
    pemCerts: File -> Result<seq<Certificate>, ()>,
    pemKeys: File -> Result<seq<PrivateKey>, ()>,
    setSingleCert: (seq<Certificate>, PrivateKey) -> Result<(), TlsError>,
    bind: seq<SocketAddr> -> IoResult<TcpListener>,
    incoming: TcpListener -> seq<IoResult<TcpStream>>)
}
