/** The Windows local-socket listener (src/os/windows/local_socket/listener.rs):
    a byte-mode named-pipe listener whose pipe path is derived from the
    local socket name, with an optional security descriptor. */
module WindowsLocalSocket {
  import opened Results
  import opened IoErrors
  import opened Names
  import opened PipeOptions
  import opened NamedPipeListener

  /** The namespace every named pipe lives in: `\\.\pipe\`. */
  const PIPE_NAMESPACE: string := "\\\\.\\pipe\\"

  datatype LocalSocketListener = LocalSocketListener(inner: PipeListener)

  datatype LocalSocketStream = LocalSocketStream(inner: PipeStream)

  /** The pipe path for a name: namespaced names are placed in the pipe
      namespace, other names are used as they are. */
  function PipePath(name: Name): (p: string)
    ensures name.namespaced ==> |p| == |PIPE_NAMESPACE| + |name.inner.value|
    ensures name.namespaced ==> p[..|PIPE_NAMESPACE|] == PIPE_NAMESPACE
    ensures name.namespaced ==> p[|PIPE_NAMESPACE|..] == name.inner.value
    ensures !name.namespaced ==> p == name.inner.value
  {
    if name.namespaced then PIPE_NAMESPACE + name.inner.value else name.inner.value
  }

  /** Two names of the same kind address the same pipe only if they are the
      same text. */
  lemma PipePathInjective(a: Name, b: Name)
    requires a.namespaced == b.namespaced
    requires PipePath(a) == PipePath(b)
    ensures a.inner.value == b.inner.value
  {
  }

  /** The options `bind` builds: the defaults, with the pipe path and, when
      given, an owned security descriptor. */
  function BindOptions(name: Name, securityDescriptor: Option<SecurityDescriptor>): (o: Options)
    ensures o.path.value == PipePath(name)
    ensures securityDescriptor.None? ==> o.securityDescriptor == None
    ensures securityDescriptor.Some? ==> o.securityDescriptor == Some(Owned(securityDescriptor.value))
    ensures forall f: Field :: f != PathField && f != SecurityDescriptorField ==> Get(o, f) == Get(New(), f)
  {
    var options := SetPath(New(), Owned(PipePath(name)));
    match securityDescriptor
    case Some(d) => Set(options, SecurityDescriptorIs(Some(Owned(d))))
    case None => options
  }

  /** `bind`: `name` is the outcome of converting the caller's value to a
      local socket name, and `initial` that of creating the first instance. */
  function Bind(name: IoResult<Name>, securityDescriptor: Option<SecurityDescriptor>, initial: IoResult<Handle>)
    : (r: IoResult<LocalSocketListener>)
    ensures name.Err? ==> r == Err(name.error)
    ensures name.Ok? && initial.Err? ==> r == Err(initial.error)
    ensures r.Ok? <==> name.Ok? && initial.Ok?
    ensures r.Ok? ==>
              && r.value.inner.rm == BytesMode && r.value.inner.sm == BytesMode
              && r.value.inner.storedInstance == initial.value
              && r.value.inner.config == ToOwned(BindOptions(name.value, securityDescriptor))
              && !r.value.inner.nonblocking
  {
    match name
    case Err(e) => Err(e)
    case Ok(n) =>
      match Create(BindOptions(n, securityDescriptor), BytesMode, BytesMode, initial)
      case Err(e) => Err(e)
      case Ok(l) => Ok(LocalSocketListener(l))
  }

  /** The configuration a bound listener creates its instances with: an
      owned pipe path as `PipePath` gives it, the security descriptor when
      one was given, and the defaults for everything else. */
  lemma BindConfiguration(name: Name, securityDescriptor: Option<SecurityDescriptor>, initial: Handle)
    ensures Bind(Ok(name), securityDescriptor, Ok(initial)).Ok?
    ensures Bind(Ok(name), securityDescriptor, Ok(initial)).value.inner.config.path == Owned(PipePath(name))
    ensures Bind(Ok(name), securityDescriptor, Ok(initial)).value.inner.config.securityDescriptor
              == (match securityDescriptor case Some(d) => Some(Owned(d)) case None => None)
    ensures forall f: Field :: f != PathField && f != SecurityDescriptorField ==>
              Get(Bind(Ok(name), securityDescriptor, Ok(initial)).value.inner.config, f) == Get(New(), f)
  {
    var o := BindOptions(name, securityDescriptor);
    ToOwnedKeepsValues(o);
  }

  /** `accept`: wraps the pipe stream, or passes the pipe listener's error on. */
  function Accept(l: LocalSocketListener, connect: ConnectReturn, created: IoResult<Handle>)
    : (r: (IoResult<LocalSocketStream>, LocalSocketListener))
    ensures r.0.Ok? <==> NamedPipeListener.Accept(l.inner, connect, created).result.Ok?
    ensures r.0.Ok? ==> r.0.value.inner == NamedPipeListener.Accept(l.inner, connect, created).result.value
    ensures r.0.Err? ==> r.0.error == NamedPipeListener.Accept(l.inner, connect, created).result.error
    ensures r.1.inner == NamedPipeListener.Accept(l.inner, connect, created).listener
  {
    var step := NamedPipeListener.Accept(l.inner, connect, created);
    match step.result
    case Ok(s) => (Ok(LocalSocketStream(s)), LocalSocketListener(step.listener))
    case Err(e) => (Err(e), LocalSocketListener(step.listener))
  }

  /** `set_nonblocking`: forwarded to the pipe listener. */
  function SetNonblocking(l: LocalSocketListener, nonblocking: bool, applied: IoResult<()>)
    : (r: (IoResult<()>, LocalSocketListener))
    ensures r.0 == applied
    ensures r.1.inner.nonblocking == nonblocking
    ensures r.1.inner == NamedPipeListener.SetNonblocking(l.inner, nonblocking, applied).listener
  {
    var step := NamedPipeListener.SetNonblocking(l.inner, nonblocking, applied);
    (step.result, LocalSocketListener(step.listener))
  }
}
