/** The accept loop of `Listener::listen` and the error classification it
    relies on (`is_transient_error`), in src/tls_listener.rs. What the loop
    does to the world is recorded as a trace of events: a handler spawned for
    an accepted stream, or a pause before the next accept. */
module Accepting {
  import opened RustStd
  import opened Collaborators

  /** The pause after an accept error that is not transient, in milliseconds. */
  const PauseMillis: nat := 500

  /** The kinds of accept error caused by the peer going away before the
      accept completed. */
  const TransientKinds: set<ErrorKind> := {ConnectionRefused, ConnectionAborted, ConnectionReset}

  /** `is_transient_error`. */
  predicate IsTransientError(e: IoError)
    ensures IsTransientError(e) <==> e.kind in TransientKinds
  {
    match e.kind
    case ConnectionRefused | ConnectionAborted | ConnectionReset => true
    case _ => false
  }

  /** An effect of the accept loop: `handle_tls` spawning a connection
      handler for a stream with the acceptor, or `task::sleep`. */
  datatype Event = Spawned(stream: TcpStream, acceptor: TlsAcceptor) | Paused(millis: nat)

  /** The effect of one result of `incoming`. */
  function Step(next: IoResult<TcpStream>, acceptor: TlsAcceptor): seq<Event>
  {
    match next
    case Err(e) => if IsTransientError(e) then [] else [Paused(PauseMillis)]
    case Ok(stream) => [Spawned(stream, acceptor)]
  }

  /** The effects of the loop over a whole sequence of accept results, in order. */
  function Dispatch(results: seq<IoResult<TcpStream>>, acceptor: TlsAcceptor): seq<Event>
    decreases |results|
  {
    if results == [] then []
    else Dispatch(results[..|results| - 1], acceptor) + Step(results[|results| - 1], acceptor)
  }

  /** The loop `while let Some(stream) = incoming.next().await { ... }`. */
  method AcceptLoop(incoming: seq<IoResult<TcpStream>>, acceptor: TlsAcceptor) returns (trace: seq<Event>)
    ensures trace == Dispatch(incoming, acceptor)
  {
    trace := [];
    var i := 0;
    while i < |incoming|
      invariant 0 <= i <= |incoming|
      invariant trace == Dispatch(incoming[..i], acceptor)
    {
      var next := incoming[i];
      i := i + 1;
      assert incoming[..i][..i - 1] == incoming[..i - 1];
      match next
      case Err(e) =>
        if IsTransientError(e) {
          continue;
        }
        trace := trace + [Paused(PauseMillis)];
        continue;
      case Ok(stream) =>
        trace := trace + [Spawned(stream, acceptor)];
    }
    assert incoming[..i] == incoming;
  }

  // Reference counts over the accept results, independent of the loop.

  /** The accepted streams, in order. */
  function AcceptedStreams(results: seq<IoResult<TcpStream>>): seq<TcpStream>
    decreases |results|
  {
    if results == [] then []
    else
      var last := results[|results| - 1];
      AcceptedStreams(results[..|results| - 1]) + (if last.Ok? then [last.value] else [])
  }

  /** The number of accept errors that are not transient. */
  function PersistentErrors(results: seq<IoResult<TcpStream>>): nat
    decreases |results|
  {
    if results == [] then 0
    else
      var last := results[|results| - 1];
      PersistentErrors(results[..|results| - 1]) + (if last.Err? && !IsTransientError(last.error) then 1 else 0)
  }

  /** The streams a trace spawns handlers for, in order. */
  function SpawnedStreams(trace: seq<Event>): seq<TcpStream>
    decreases |trace|
  {
    if trace == [] then []
    else
      var last := trace[|trace| - 1];
      SpawnedStreams(trace[..|trace| - 1]) + (if last.Spawned? then [last.stream] else [])
  }

  /** The durations of the pauses in a trace, in order. */
  function Pauses(trace: seq<Event>): seq<nat>
    decreases |trace|
  {
    if trace == [] then []
    else
      var last := trace[|trace| - 1];
      Pauses(trace[..|trace| - 1]) + (if last.Paused? then [last.millis] else [])
  }

  /** Appending one event to a trace extends its spawned streams and its pauses by that event alone. */
  lemma TraceAppendOne(trace: seq<Event>, e: Event)
    ensures SpawnedStreams(trace + [e]) == SpawnedStreams(trace) + (if e.Spawned? then [e.stream] else [])
    ensures Pauses(trace + [e]) == Pauses(trace) + (if e.Paused? then [e.millis] else [])
  {
  }

  /** Every accepted stream gets exactly one handler, in the order of
      acceptance, and every handler is given the listener's acceptor. */
  lemma {:induction false} DispatchSpawnsEachAcceptedStream(results: seq<IoResult<TcpStream>>, acceptor: TlsAcceptor)
    ensures SpawnedStreams(Dispatch(results, acceptor)) == AcceptedStreams(results)
    ensures forall e :: e in Dispatch(results, acceptor) && e.Spawned? ==> e.acceptor == acceptor
  {
    if results != [] {
      var init, last := results[..|results| - 1], results[|results| - 1];
      DispatchSpawnsEachAcceptedStream(init, acceptor);
      var before := Dispatch(init, acceptor);
      match last
      case Err(e) =>
        if !IsTransientError(e) {
          TraceAppendOne(before, Paused(PauseMillis));
        } else {
          assert Dispatch(results, acceptor) == before + [] == before;
          assert AcceptedStreams(results) == AcceptedStreams(init) + [];
        }
      case Ok(stream) =>
        TraceAppendOne(before, Spawned(stream, acceptor));
    }
  }

  /** The loop pauses exactly once per accept error that is not transient,
      always for 500 ms; transient errors add no pause. */
  lemma {:induction false} DispatchPausesOncePerPersistentError(results: seq<IoResult<TcpStream>>, acceptor: TlsAcceptor)
    ensures |Pauses(Dispatch(results, acceptor))| == PersistentErrors(results)
    ensures forall i :: 0 <= i < |Pauses(Dispatch(results, acceptor))| ==> Pauses(Dispatch(results, acceptor))[i] == PauseMillis
  {
    if results != [] {
      var init, last := results[..|results| - 1], results[|results| - 1];
      DispatchPausesOncePerPersistentError(init, acceptor);
      var before := Dispatch(init, acceptor);
      match last
      case Err(e) =>
        if !IsTransientError(e) {
          TraceAppendOne(before, Paused(PauseMillis));
        } else {
          assert Dispatch(results, acceptor) == before + [] == before;
          assert PersistentErrors(results) == PersistentErrors(init) + 0;
        }
      case Ok(stream) =>
        TraceAppendOne(before, Spawned(stream, acceptor));
    }
  }

  /** No accept result ends the loop: what follows a result is handled the
      same whatever came before it. */
  lemma {:induction false} DispatchAppend(first: seq<IoResult<TcpStream>>, rest: seq<IoResult<TcpStream>>, acceptor: TlsAcceptor)
    ensures Dispatch(first + rest, acceptor) == Dispatch(first, acceptor) + Dispatch(rest, acceptor)
    decreases |rest|
  {
    if rest == [] {
      assert first + rest == first;
    } else {
      var init, last := rest[..|rest| - 1], rest[|rest| - 1];
      assert (first + rest)[..|first + rest| - 1] == first + init;
      DispatchAppend(first, init, acceptor);
    }
  }

  /** A run of transient errors leaves no trace at all. */
  lemma {:induction false} TransientErrorsAreSilent(results: seq<IoResult<TcpStream>>, acceptor: TlsAcceptor)
    requires forall i :: 0 <= i < |results| ==> results[i].Err? && IsTransientError(results[i].error)
    ensures Dispatch(results, acceptor) == []
    decreases |results|
  {
    if results != [] {
      TransientErrorsAreSilent(results[..|results| - 1], acceptor);
    }
  }

  /** Any number of transient errors followed by one accepted stream spawn
      exactly one handler and never pause. */
  lemma RetryAfterTransientErrors(errors: seq<IoResult<TcpStream>>, stream: TcpStream, acceptor: TlsAcceptor)
    requires forall i :: 0 <= i < |errors| ==> errors[i].Err? && IsTransientError(errors[i].error)
    ensures Dispatch(errors + [Ok(stream)], acceptor) == [Spawned(stream, acceptor)]
  {
    TransientErrorsAreSilent(errors, acceptor);
    assert (errors + [Ok(stream)])[..|errors|] == errors;
  }

  /** An error that is not transient pauses for 500 ms, and the loop goes on
      to handle everything after it. */
  lemma PersistentErrorPausesThenContinues(before: seq<IoResult<TcpStream>>, e: IoError, after: seq<IoResult<TcpStream>>, acceptor: TlsAcceptor)
    requires !IsTransientError(e)
    ensures Dispatch(before + [Err(e)] + after, acceptor)
         == Dispatch(before, acceptor) + [Paused(PauseMillis)] + Dispatch(after, acceptor)
  {
    DispatchAppend(before + [Err(e)], after, acceptor);
    assert (before + [Err(e)])[..|before|] == before;
  }
}
