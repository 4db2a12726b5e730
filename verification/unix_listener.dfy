/** The Unix-domain-socket local-socket listener
    (src/os/unix/uds_local_socket/listener.rs): binding with or without
    name reclamation, the translation of "already exists" into "address in
    use", and the operations that forget the reclaim guard.

    The socket calls are not modelled: `name_to_addr` and `bind_addr` are
    oracle functions supplied by the caller, and the outcomes of `accept`
    and of setting the nonblocking flag are parameters. */
module UnixLocalSocket {
  import opened Results
  import opened IoErrors
  import opened Names
  import opened ListenerTrait

  /** A socket address built from a name; its encoding is not modelled. */
  datatype SockAddr = SockAddr(id: int)

  /** A bound listening socket, known by its file descriptor. */
  datatype Socket = Socket(fd: int)

  /** The name whose socket file is unlinked when the listener is dropped,
      if any. Forgetting the guard empties it. */
  datatype ReclaimGuard = ReclaimGuard(name: Option<Name>)

  datatype Listener = Listener(listener: Socket, reclaim: ReclaimGuard)

  /** A stream over an accepted connection. */
  datatype Stream = Stream(fd: int)

  /** The two system services binding relies on. */
  datatype UnixOs = UnixOs(nameToAddr: Name -> IoResult<SockAddr>, bindAddr: SockAddr -> IoResult<Socket>)

  /** The guard a listener gets when it does not reclaim its name. */
  const NoReclaim: ReclaimGuard := ReclaimGuard(None)

  /** The name a listener's drop would unlink. */
  function ReclaimedOnDrop(l: Listener): Option<Name> {
    l.reclaim.name
  }

  /** "Already exists" becomes "address in use"; any other error is kept. */
  function DecodeListenError(error: IoError): (r: IoError)
    ensures r.kind == (if error.kind == AlreadyExists then AddrInUse else error.kind)
    ensures error.kind != AlreadyExists ==> r == error
    ensures error.kind == AlreadyExists ==> r.rawOsError == None
  {
    if error.kind == AlreadyExists then FromKind(AddrInUse) else error
  }

  /** Decoding twice is decoding once, and a decoded error never reads as
      "already exists". */
  lemma DecodeListenErrorIdempotent(error: IoError)
    ensures DecodeListenError(DecodeListenError(error)) == DecodeListenError(error)
    ensures DecodeListenError(error).kind != AlreadyExists
  {
  }

  /** Binds a listener on `name`, arming the reclaim guard with an owned
      copy of the name when `keepName` is set. */
  function BindWith(name: Name, keepName: bool, os: UnixOs): (r: IoResult<Listener>)
    ensures os.nameToAddr(name.Borrow()).Err? ==> r == Err(os.nameToAddr(name.Borrow()).error)
    ensures os.nameToAddr(name.Borrow()).Ok? && os.bindAddr(os.nameToAddr(name.Borrow()).value).Err? ==>
              r == Err(DecodeListenError(os.bindAddr(os.nameToAddr(name.Borrow()).value).error))
    ensures r.Ok? <==> os.nameToAddr(name.Borrow()).Ok? && os.bindAddr(os.nameToAddr(name.Borrow()).value).Ok?
    ensures r.Ok? ==> r.value.listener == os.bindAddr(os.nameToAddr(name.Borrow()).value).value
    ensures r.Ok? ==> (r.value.reclaim.name.Some? <==> keepName)
    ensures r.Ok? && keepName ==>
              r.value.reclaim.name.value.inner.Owned?
              && r.value.reclaim.name.value.inner.value == name.inner.value
              && r.value.reclaim.name.value.namespaced == name.namespaced
  {
    match os.nameToAddr(name.Borrow())
    case Err(e) => Err(e)
    case Ok(addr) =>
      match os.bindAddr(addr).MapErr(DecodeListenError)
      case Err(e) => Err(e)
      case Ok(socket) =>
        Ok(Listener(socket, if keepName then ReclaimGuard(Some(name.IntoOwned())) else NoReclaim))
  }

  /** `bind`: the listener reclaims its name when dropped. */
  function Bind(name: Name, os: UnixOs): (r: IoResult<Listener>)
    ensures r.Ok? ==> ReclaimedOnDrop(r.value) == Some(name.IntoOwned())
    ensures r.Err? <==> BindWith(name, false, os).Err?
  {
    BindWith(name, true, os)
  }

  /** `bind_without_name_reclamation`: the listener reclaims nothing. */
  function BindWithoutNameReclamation(name: Name, os: UnixOs): (r: IoResult<Listener>)
    ensures r.Ok? ==> ReclaimedOnDrop(r.value) == None
    ensures r.Err? <==> Bind(name, os).Err?
  {
    BindWith(name, false, os)
  }

  /** `accept`: a stream over the accepted connection; the peer address is
      dropped and an error is passed through. */
  function Accept(l: Listener, accepted: IoResult<(int, SockAddr)>): (r: IoResult<Stream>)
    ensures r.Ok? <==> accepted.Ok?
    ensures r.Ok? ==> r.value.fd == accepted.value.0
    ensures r.Err? ==> r.error == accepted.error
  {
    match accepted
    case Ok((fd, _)) => Ok(Stream(fd))
    case Err(e) => Err(e)
  }

  /** `set_nonblocking`: the outcome of setting the flag on the socket is
      the result, and the listener is not changed. */
  function SetNonblocking(l: Listener, nonblocking: bool, applied: IoResult<()>): (r: (IoResult<()>, Listener))
    ensures r.0 == applied
    ensures r.1 == l
  {
    (applied, l)
  }

  /** `do_not_reclaim_name_on_drop`: forgets the guard, keeping the socket. */
  function DoNotReclaimNameOnDrop(l: Listener): (r: Listener)
    ensures r.listener == l.listener
    ensures ReclaimedOnDrop(r) == None
  {
    Listener(l.listener, NoReclaim)
  }

  /** Conversion into the bare socket: the guard is forgotten before the
      rest of the listener is dropped, so the result pairs the socket with
      the guard that is dropped along with the listener. */
  function IntoUnixListener(l: Listener): (r: (Socket, ReclaimGuard))
    ensures r.0 == l.listener
    ensures r.1.name == None
  {
    (l.listener, NoReclaim)
  }

  /** Conversion into the owned file descriptor, through the bare socket. */
  function IntoOwnedFd(l: Listener): (fd: int)
    ensures fd == l.listener.fd
  {
    IntoUnixListener(l).0.fd
  }

  /** Conversion from an owned file descriptor: nothing to reclaim. */
  function FromOwnedFd(fd: int): (l: Listener)
    ensures l.listener.fd == fd
    ensures ReclaimedOnDrop(l) == None
  {
    Listener(Socket(fd), NoReclaim)
  }

  /** Going through a file descriptor and back keeps the socket and drops
      the reclaim obligation; the other way round is the identity. */
  lemma OwnedFdRoundTrip(l: Listener, fd: int)
    ensures FromOwnedFd(IntoOwnedFd(l)) == DoNotReclaimNameOnDrop(l)
    ensures IntoOwnedFd(FromOwnedFd(fd)) == fd
  {
  }

  /** The trait's promise: binding without reclamation behaves like binding
      and then forgetting the guard. */
  lemma BindWithoutReclamationIsBindThenForget(name: Name, os: UnixOs)
    ensures BindWithoutNameReclamation(name, os)
              == (match Bind(name, os)
                  case Ok(l) => Ok(DoNotReclaimNameOnDrop(l))
                  case Err(e) => Err(e))
  {
  }

  /** Forgetting twice is forgetting once. */
  lemma DoNotReclaimIdempotent(l: Listener)
    ensures DoNotReclaimNameOnDrop(DoNotReclaimNameOnDrop(l)) == DoNotReclaimNameOnDrop(l)
  {
  }

  /** The accept step the `Incoming` iterator drives: the listener state is
      not changed by accepting. */
  function AcceptStep(l: Listener, accepted: IoResult<(int, SockAddr)>): (a: Accepted<Stream, Listener>)
    ensures a.result == Accept(l, accepted)
    ensures a.after == l
  {
    Accepted(Accept(l, accepted), l)
  }

  /** Iterating `incoming()` over a Unix listener yields, in order, one
      accepted stream (or error) per connection attempt, and leaves the
      listener as it was. */
  lemma IncomingYieldsAccepts(l: Listener, outcomes: seq<IoResult<(int, SockAddr)>>)
    ensures |Take(IncomingOf(l), AcceptStep, outcomes).0| == |outcomes|
    ensures Take(IncomingOf(l), AcceptStep, outcomes).1 == IncomingOf(l)
    ensures forall i :: 0 <= i < |outcomes| ==>
              Take(IncomingOf(l), AcceptStep, outcomes).0[i] == Some(Accept(l, outcomes[i]))
  {
    TakeIsRepeatedAccept(IncomingOf(l), AcceptStep, outcomes);
    forall n | 0 <= n <= |outcomes|
      ensures ListenerAfter(l, AcceptStep, outcomes[..n]) == l
    {
      ListenerAfterIsFixed(l, outcomes[..n]);
    }
  }

  lemma {:induction false} ListenerAfterIsFixed(l: Listener, outcomes: seq<IoResult<(int, SockAddr)>>)
    ensures ListenerAfter(l, AcceptStep, outcomes) == l
    decreases |outcomes|
  {
    if |outcomes| > 0 {
      ListenerAfterIsFixed(l, outcomes[1..]);
    }
  }
}
