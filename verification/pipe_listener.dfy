/** The Windows named-pipe listener (src/os/windows/named_pipe/listener.rs)
    and its construction from options
    (src/os/windows/named_pipe/listener/options.rs).

    The listener keeps exactly one spare pipe instance. `accept` waits for a
    client on that instance, creates a replacement, swaps it into the slot
    and hands the connected instance out as a stream. The lock around the
    slot is modelled by running every operation as one sequential step.

    System calls are not modelled: their outcomes are parameters, and each
    operation returns the calls it made, in order, with their arguments. */
module NamedPipeListener {
  import opened Results
  import opened IoErrors
  import opened PipeOptions

  /** `ERROR_PIPE_CONNECTED`: a client connected before the wait began. */
  const ERROR_PIPE_CONNECTED: int := 535

  /** A kernel handle to one pipe instance. */
  datatype Handle = Handle(raw: int)

  /** The mode markers for the receive and send halves of a stream;
      `NoMode` means that half is absent. */
  datatype PipeModeTag = NoMode | BytesMode | MessagesMode {
    function Mode(): (m: Option<PipeMode>)
      ensures m.None? <==> NoMode?
    {
      match this
      case NoMode => None
      case BytesMode => Some(Bytes)
      case MessagesMode => Some(Messages)
    }
  }

  /** Which halves a stream has, identified by its two mode markers. */
  datatype StreamRole = StreamRole(rm: PipeModeTag, sm: PipeModeTag)

  /** The arguments of one request to create a pipe instance. */
  datatype InstanceRequest = InstanceRequest(
    config: Options,
    first: bool,
    nonblocking: bool,
    overlapped: bool,
    role: StreamRole,
    readMode: Option<PipeMode>)

  /** A system call the listener made. */
  datatype OsCall =
    | ConnectNamedPipe(handle: Handle)
    | CreateInstance(request: InstanceRequest)
    | SetNonblockingGivenReadMode(target: Handle, nonblocking: bool, readMode: Option<PipeMode>)

  /** What `ConnectNamedPipe` reported: success, or failure with the last
      operating-system error. */
  datatype ConnectReturn = Connected | ConnectFailed(lastError: IoError)

  datatype PipeListener = PipeListener(
    rm: PipeModeTag,
    sm: PipeModeTag,
    config: Options,
    nonblocking: bool,
    storedInstance: Handle)

  /** A stream over one pipe instance; `server` marks the server end. */
  datatype PipeStream = PipeStream(rm: PipeModeTag, sm: PipeModeTag, handle: Handle, server: bool)

  /** The result of an operation, the listener afterwards, and the system
      calls made. */
  datatype Transition<T> = Transition(result: IoResult<T>, listener: PipeListener, calls: seq<OsCall>)

  /** A successful connect, or a connect that failed only because the client
      was already connected, lets the accept proceed. */
  function BlockOnConnect(c: ConnectReturn): (r: IoResult<()>)
    ensures r.Ok? <==> c.Connected? || c.lastError.rawOsError == Some(ERROR_PIPE_CONNECTED)
    ensures r.Err? ==> r.error == c.lastError
  {
    match c
    case Connected => Ok(())
    case ConnectFailed(e) =>
      if e.rawOsError == Some(ERROR_PIPE_CONNECTED) then Ok(()) else Err(e)
  }

  /** The request `create_instance` makes for a replacement instance: never
      the first instance, not overlapped, with the listener's configuration,
      role and read mode. */
  function ReplacementRequest(l: PipeListener, nonblocking: bool): (q: InstanceRequest)
    ensures !q.first && !q.overlapped && q.nonblocking == nonblocking
    ensures q.config == l.config && q.role == StreamRole(l.rm, l.sm) && q.readMode == l.rm.Mode()
  {
    InstanceRequest(l.config, false, nonblocking, false, StreamRole(l.rm, l.sm), l.rm.Mode())
  }

  /** `accept`, given what the wait for a client reported and what creating
      the replacement instance returned. */
  function Accept(l: PipeListener, connect: ConnectReturn, created: IoResult<Handle>): (r: Transition<PipeStream>)
    // only the slot can change
    ensures r.listener.rm == l.rm && r.listener.sm == l.sm
    ensures r.listener.config == l.config && r.listener.nonblocking == l.nonblocking
    ensures r.result.Ok? <==> BlockOnConnect(connect).Ok? && created.Ok?
    // success hands out the stored instance and stores the new one
    ensures r.result.Ok? ==>
              r.result.value == PipeStream(l.rm, l.sm, l.storedInstance, true)
              && r.listener.storedInstance == created.value
    ensures r.result.Err? ==> r.listener == l
    // a failed wait creates nothing
    ensures BlockOnConnect(connect).Err? ==>
              r.result == Err(connect.lastError) && r.calls == [ConnectNamedPipe(l.storedInstance)]
    // after a successful wait, exactly one replacement is requested
    ensures BlockOnConnect(connect).Ok? ==>
              r.calls == [ConnectNamedPipe(l.storedInstance), CreateInstance(ReplacementRequest(l, l.nonblocking))]
    ensures BlockOnConnect(connect).Ok? && created.Err? ==> r.result == Err(created.error)
  {
    var nonblocking := l.nonblocking;
    var connectCall := ConnectNamedPipe(l.storedInstance);
    match BlockOnConnect(connect)
    case Err(e) => Transition(Err(e), l, [connectCall])
    case Ok(_) =>
      var calls := [connectCall, CreateInstance(ReplacementRequest(l, nonblocking))];
      match created
      case Err(e) => Transition(Err(e), l, calls)
      case Ok(spare) =>
        Transition(Ok(PipeStream(l.rm, l.sm, l.storedInstance, true)), l.(storedInstance := spare), calls)
  }

  /** `set_nonblocking`: the flag is stored first, then applied to the
      stored instance; the flag stays stored even if applying it fails. */
  function SetNonblocking(l: PipeListener, nonblocking: bool, applied: IoResult<()>): (r: Transition<()>)
    ensures r.listener == l.(nonblocking := nonblocking)
    ensures r.listener.storedInstance == l.storedInstance
    ensures r.result == applied
    ensures r.calls == [SetNonblockingGivenReadMode(l.storedInstance, nonblocking, l.rm.Mode())]
  {
    Transition(applied, l.(nonblocking := nonblocking),
               [SetNonblockingGivenReadMode(l.storedInstance, nonblocking, l.rm.Mode())])
  }

  /** Conversion into the owned handle: the stored instance. */
  function IntoOwnedHandle(l: PipeListener): (h: Handle)
    ensures h == l.storedInstance
  {
    l.storedInstance
  }

  /** `create`: `initial` is the outcome of creating the first instance from
      the owned copy of the options. */
  function Create(o: Options, rm: PipeModeTag, sm: PipeModeTag, initial: IoResult<Handle>): (r: IoResult<PipeListener>)
    ensures r.Ok? <==> initial.Ok?
    ensures r.Err? ==> r.error == initial.error
    ensures r.Ok? ==>
              r.value.rm == rm && r.value.sm == sm
              && r.value.config == ToOwned(o)
              && r.value.nonblocking == o.nonblocking
              && r.value.storedInstance == initial.value
  {
    match initial
    case Err(e) => Err(e)
    case Ok(instance) =>
      var ownedConfig := ToOwned(o);
      Ok(PipeListener(rm, sm, ownedConfig, ownedConfig.nonblocking, instance))
  }

  /** `create_duplex`: both halves use the same mode. */
  function CreateDuplex(o: Options, m: PipeModeTag, initial: IoResult<Handle>): (r: IoResult<PipeListener>)
    ensures r == Create(o, m, m, initial)
    ensures r.Ok? ==> r.value.rm == m && r.value.sm == m
  {
    Create(o, m, m, initial)
  }

  /** `create_recv_only`: no send half. */
  function CreateRecvOnly(o: Options, rm: PipeModeTag, initial: IoResult<Handle>): (r: IoResult<PipeListener>)
    ensures r == Create(o, rm, NoMode, initial)
    ensures r.Ok? ==> r.value.sm == NoMode
  {
    Create(o, rm, NoMode, initial)
  }

  /** `create_send_only`: no receive half. */
  function CreateSendOnly(o: Options, sm: PipeModeTag, initial: IoResult<Handle>): (r: IoResult<PipeListener>)
    ensures r == Create(o, NoMode, sm, initial)
    ensures r.Ok? ==> r.value.rm == NoMode
  {
    Create(o, NoMode, sm, initial)
  }

  // ---------------------------------------------------------------------
  // Properties across operations
  // ---------------------------------------------------------------------

  /** The flag set by `set_nonblocking` is the flag the next accept creates
      its replacement instance with, whether or not applying it to the
      stored instance succeeded. */
  lemma SetNonblockingGovernsNextInstance(l: PipeListener, b: bool, applied: IoResult<()>,
                                          connect: ConnectReturn, created: IoResult<Handle>)
    requires BlockOnConnect(connect).Ok?
    ensures Accept(SetNonblocking(l, b, applied).listener, connect, created).calls[1].request.nonblocking == b
  {
  }

  /** A listener fresh from `create` recycles instances with the options'
      nonblocking flag and an owned copy of the options. */
  lemma CreatedListenerRequests(o: Options, rm: PipeModeTag, sm: PipeModeTag, initial: Handle,
                                connect: ConnectReturn, created: IoResult<Handle>)
    requires BlockOnConnect(connect).Ok?
    ensures Create(o, rm, sm, Ok(initial)).Ok?
    ensures Accept(Create(o, rm, sm, Ok(initial)).value, connect, created).calls[1].request.nonblocking == o.nonblocking
    ensures IsStatic(Accept(Create(o, rm, sm, Ok(initial)).value, connect, created).calls[1].request.config)
  {
  }

  /** What one accept call is given. */
  datatype AcceptOutcome = AcceptOutcome(connect: ConnectReturn, created: IoResult<Handle>)

  predicate Succeeds(o: AcceptOutcome) {
    BlockOnConnect(o.connect).Ok? && o.created.Ok?
  }

  /** The results of one accept per outcome, in order, and the listener
      afterwards. */
  function AcceptAll(l: PipeListener, outcomes: seq<AcceptOutcome>): (r: (seq<IoResult<PipeStream>>, PipeListener))
    ensures |r.0| == |outcomes|
    decreases |outcomes|
  {
    if |outcomes| == 0 then ([], l)
    else
      var step := Accept(l, outcomes[0].connect, outcomes[0].created);
      var rest := AcceptAll(step.listener, outcomes[1..]);
      ([step.result] + rest.0, rest.1)
  }

  /** The handle in the slot after the given accepts, starting from `h`:
      each successful accept stores the instance it created. */
  function SlotAfter(h: Handle, outcomes: seq<AcceptOutcome>): Handle
    decreases |outcomes|
  {
    if |outcomes| == 0 then h
    else SlotAfter(if Succeeds(outcomes[0]) then outcomes[0].created.value else h, outcomes[1..])
  }

  /** Over any run of accepts, the i-th accept succeeds exactly when its wait
      and its creation do, it hands out the instance that the earlier
      accepts left in the slot, and the listener keeps its configuration. */
  lemma {:induction false} AcceptAllRecycles(l: PipeListener, outcomes: seq<AcceptOutcome>)
    ensures AcceptAll(l, outcomes).1 == l.(storedInstance := SlotAfter(l.storedInstance, outcomes))
    ensures forall i :: 0 <= i < |outcomes| ==> (AcceptAll(l, outcomes).0[i].Ok? <==> Succeeds(outcomes[i]))
    ensures forall i :: 0 <= i < |outcomes| && AcceptAll(l, outcomes).0[i].Ok? ==>
              AcceptAll(l, outcomes).0[i].value
                == PipeStream(l.rm, l.sm, SlotAfter(l.storedInstance, outcomes[..i]), true)
    decreases |outcomes|
  {
    if |outcomes| > 0 {
      var step := Accept(l, outcomes[0].connect, outcomes[0].created);
      var tail := outcomes[1..];
      AcceptAllRecycles(step.listener, tail);
      assert step.listener.storedInstance
               == (if Succeeds(outcomes[0]) then outcomes[0].created.value else l.storedInstance);
      forall i | 0 < i < |outcomes|
        ensures SlotAfter(l.storedInstance, outcomes[..i]) == SlotAfter(step.listener.storedInstance, tail[..i - 1])
      {
        assert outcomes[..i][1..] == tail[..i - 1];
      }
    }
  }

  /** Slot contents compose over consecutive runs of accepts. */
  lemma {:induction false} SlotAfterConcat(h: Handle, a: seq<AcceptOutcome>, b: seq<AcceptOutcome>)
    ensures SlotAfter(h, a + b) == SlotAfter(SlotAfter(h, a), b)
    decreases |a|
  {
    if |a| == 0 {
      assert a + b == b;
    } else {
      assert (a + b)[1..] == a[1..] + b;
      SlotAfterConcat(if Succeeds(a[0]) then a[0].created.value else h, a[1..], b);
    }
  }

  /** The slot holds either the starting handle or an instance created by
      a successful accept of the run, and never the starting handle once an
      accept has succeeded at the start of the run. */
  lemma {:induction false} SlotOrigin(h: Handle, outcomes: seq<AcceptOutcome>)
    ensures SlotAfter(h, outcomes) == h
            || exists k :: 0 <= k < |outcomes| && Succeeds(outcomes[k]) && SlotAfter(h, outcomes) == outcomes[k].created.value
    ensures |outcomes| > 0 && Succeeds(outcomes[0]) ==>
              exists k :: 0 <= k < |outcomes| && Succeeds(outcomes[k]) && SlotAfter(h, outcomes) == outcomes[k].created.value
    decreases |outcomes|
  {
    if |outcomes| > 0 {
      var h' := if Succeeds(outcomes[0]) then outcomes[0].created.value else h;
      var tail := outcomes[1..];
      SlotOrigin(h', tail);
      if SlotAfter(h', tail) != h' {
        var k :| 0 <= k < |tail| && Succeeds(tail[k]) && SlotAfter(h', tail) == tail[k].created.value;
        assert outcomes[k + 1] == tail[k];
      } else if Succeeds(outcomes[0]) {
        assert SlotAfter(h, outcomes) == outcomes[0].created.value;
      }
    }
  }

  /** The operating system never returns a handle that is still open: the
      starting instance and every created instance are pairwise distinct. */
  predicate FreshHandles(h: Handle, outcomes: seq<AcceptOutcome>) {
    && (forall k :: 0 <= k < |outcomes| && outcomes[k].created.Ok? ==> outcomes[k].created.value != h)
    && (forall k, m :: 0 <= k < m < |outcomes| && outcomes[k].created.Ok? && outcomes[m].created.Ok? ==>
          outcomes[k].created.value != outcomes[m].created.value)
  }

  /** With fresh handles, no instance is ever handed out twice: the slot is
      the single owner of its instance until an accept hands it out. */
  lemma {:induction false} HandedOutOnce(l: PipeListener, outcomes: seq<AcceptOutcome>, i: nat, j: nat)
    requires FreshHandles(l.storedInstance, outcomes)
    requires i < j < |outcomes|
    requires AcceptAll(l, outcomes).0[i].Ok? && AcceptAll(l, outcomes).0[j].Ok?
    ensures AcceptAll(l, outcomes).0[i].value.handle != AcceptAll(l, outcomes).0[j].value.handle
  {
    AcceptAllRecycles(l, outcomes);
    var h := l.storedInstance;
    var hi := SlotAfter(h, outcomes[..i]);
    var mid := outcomes[i..j];
    assert outcomes[..j] == outcomes[..i] + mid;
    SlotAfterConcat(h, outcomes[..i], mid);
    var hj := SlotAfter(h, outcomes[..j]);
    assert hj == SlotAfter(hi, mid);
    assert mid[0] == outcomes[i];
    SlotOrigin(hi, mid);
    var m :| 0 <= m < |mid| && Succeeds(mid[m]) && hj == mid[m].created.value;
    assert mid[m] == outcomes[i + m];
    SlotOrigin(h, outcomes[..i]);
    if hi != h {
      var k :| 0 <= k < i && Succeeds(outcomes[..i][k]) && hi == outcomes[..i][k].created.value;
      assert outcomes[..i][k] == outcomes[k];
    }
  }
}
