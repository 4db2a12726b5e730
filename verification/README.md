# Local-socket listeners and control-message validation, in Dafny

This project models the listener side of the `interprocess` local-socket
library and proves properties of the model. A local socket is a Unix domain
socket on Unix-family systems and a named pipe on Windows. The model covers
six pieces:

- **Control-message validation** (`Ancillary`, in `ancillary.dfy`). The
  level, type and size checks for Unix-domain-socket control messages. Each
  check either hands the message back or returns a typed error that also
  hands it back. The module also covers mapping the payload error type and
  the display strings of the errors.
- **Unix listener** (`UnixLocalSocket`, in `unix_listener.dfy`). Binding with
  or without name reclamation. The translation of "already exists" into
  "address in use". The operations that forget the reclaim guard: the guard
  names the socket file that dropping the listener would unlink.
- **Named-pipe listener** (`NamedPipeListener`, in `pipe_listener.dfy`). The
  listener holds one spare instance. `accept` waits for a client on it,
  creates a replacement, swaps the replacement into the slot and hands out
  the connected instance. `set_nonblocking` updates the stored flag and the
  stored instance. This file also models listener creation from options.
- **Pipe listener options** (`PipeOptions`, in `pipe_options.dfy`). The
  default table, the single-field setters, and `to_owned`.
- **Listener interface** (`ListenerTrait`, in `listener_trait.dfy`). The
  `Incoming` iterator is infinite and fused: every `next` is `Some` of one
  accept.
- **Windows local-socket listener** (`WindowsLocalSocket`, in
  `windows_local_socket.dfy`). Building the pipe path from a name, placing
  the optional security descriptor into the options, and forwarding `accept`
  and `set_nonblocking`.

Support modules: `Results` (`Option`, `Result`, `Cow`), `IoErrors` (I/O error
kinds and raw OS codes), `Decimal` (how `{}` renders integers, with a parser
proving the rendering is injective) and `Names` (local socket names).

System calls are never modelled. Their outcomes are parameters:
- what `ConnectNamedPipe` reported;
- the handle, or error, from creating an instance;
- the result of `accept` and of setting the nonblocking flag.

The Unix bind takes `name_to_addr` and `bind_addr` as oracle functions. The
named-pipe operations also return the system calls they made, with their
arguments. That is how the model can say, for example, that a failed wait
creates no instance.

The lock around the spare-instance slot and the atomic flag are modelled as
one sequential step per operation.

Constants: `SOL_SOCKET` is 1, its Linux value. `ERROR_PIPE_CONNECTED` is 535.
`usize::MAX` is 2^64 - 1, for a 64-bit target.

Three behaviours of the code worth knowing:
- When creating the replacement instance fails, `accept` returns before the
  swap. The slot therefore still holds the previous instance, now connected
  (`NamedPipeListener.Accept`).
- `set_nonblocking` stores the flag before applying it to the stored
  instance. If applying it fails, the flag stays changed.
- The Windows bind does not translate any error into "address in use". It
  passes every error through unchanged.

## Model

| member | source | states |
|---|---|---|
| `Ancillary.Wrap` | src/os/unix/udsocket/cmsg/ancillary/mod.rs:111-113 | the error pairs the given message with the kind, unchanged |
| `Ancillary.MapKindPayloadErr` | src/os/unix/udsocket/cmsg/ancillary/mod.rs:116-122 | `f` applies only to a malformed-payload error; level and type errors keep their variant and their `expected`/`got` fields |
| `Ancillary.MapKindPayloadErrIdentity` | src/os/unix/udsocket/cmsg/ancillary/mod.rs:116-122 | mapping with the identity returns the same kind |
| `Ancillary.MapKindPayloadErrCompose` | src/os/unix/udsocket/cmsg/ancillary/mod.rs:116-122 | mapping with `f` then `g` equals mapping once with their composition |
| `Ancillary.MapPayloadErr` | src/os/unix/udsocket/cmsg/ancillary/mod.rs:72-78 | the parse error keeps its message and maps its kind |
| `Ancillary.WrapThenMap` | src/os/unix/udsocket/cmsg/ancillary/mod.rs:72-78 | wrapping then mapping equals mapping then wrapping, so the message is never touched |
| `Ancillary.CheckLevel` | src/os/unix/udsocket/cmsg/ancillary/mod.rs:165-175 | succeeds iff the level is `SOL_SOCKET`, returning the same message; otherwise `WrongLevel{expected: Some(SOL_SOCKET), got: level}` carrying the same message |
| `Ancillary.CheckType` | src/os/unix/udsocket/cmsg/ancillary/mod.rs:176-186 | succeeds iff the type is the expected one, returning the message; otherwise `WrongType{expected: Some(t), got: type}` carrying the message |
| `Ancillary.CheckLevelAndType` | src/os/unix/udsocket/cmsg/ancillary/mod.rs:187-190 | succeeds iff both level and type match; a wrong level is reported as `WrongLevel` even when the type is also wrong |
| `Ancillary.CheckSize` | src/os/unix/udsocket/cmsg/ancillary/mod.rs:192-198 | succeeds iff the payload length equals the expected size; otherwise a malformed-payload error built from `SizeMismatch{expected, got: length}` |
| `Ancillary.ValidatorsReturnTheMessage` | src/os/unix/udsocket/cmsg/ancillary/mod.rs:165-198 | each of the level, type, combined and size checks returns the message it was given, on success and inside the error; mapping the error's payload type keeps the message; checking the returned message again gives the same verdict, so the caller can retry it with another parser |
| `Ancillary.ChecksCompose` | src/os/unix/udsocket/cmsg/ancillary/mod.rs:187-198 | the combined check followed by the size check accepts exactly the messages with the right level, type and size |
| `Ancillary.DisplayKindAsWrittenUnclosed` | src/os/unix/udsocket/cmsg/ancillary/mod.rs:133-140 | the kind's message as the code writes it (`DisplayKindAsWritten`): a level or type error's message ends with the last digit of the received value, never with ")" |
| `Ancillary.DisplayKindAsWrittenShape` | src/os/unix/udsocket/cmsg/ancillary/mod.rs:127-140 | as written, the message starts with the base text of its variant: the first character separates payload errors, the twelfth separates level from type errors |
| `Ancillary.DetailOpenInjective` | src/os/unix/udsocket/cmsg/ancillary/mod.rs:133-140 | the text "expected E, got G" (or "got G"), as the code writes it, determines `E`, its presence and `G` |
| `Ancillary.DisplayKindAsWrittenInjective` | src/os/unix/udsocket/cmsg/ancillary/mod.rs:124-144 | as written, distinct level and type errors display differently, including present versus absent `expected`; payload errors differ when their payloads display differently |
| `Ancillary.DisplayError` | src/os/unix/udsocket/cmsg/ancillary/mod.rs:80-85 | a parse error displays as its kind, as written, so a level or type error's message never ends with ")" |
| `Ancillary.DisplayKindAsWrittenUnbalanced` | src/os/unix/udsocket/cmsg/ancillary/mod.rs:133-140 | as written, a level or type error message opens one parenthesis and closes none |
| `Ancillary.DisplayKindAsWrittenExample` | src/os/unix/udsocket/cmsg/ancillary/mod.rs:133-140 | as written, `WrongLevel{Some(1), 2}` displays as exactly "wrong cmsg_level (expected 1, got 2" |
| `Ancillary.DisplayKind` | src/os/unix/udsocket/cmsg/ancillary/mod.rs:133-140 | corrected definition (see Findings): the as-written message for a payload error; the as-written message followed by ")" for a level or type error |
| `Ancillary.DisplayKindShape` | src/os/unix/udsocket/cmsg/ancillary/mod.rs:127-140 | corrected definition: the message still starts with the base text of its variant, with the same distinguishing characters |
| `Ancillary.DisplayKindInjective` | src/os/unix/udsocket/cmsg/ancillary/mod.rs:124-144 | corrected definition: distinct kinds still display differently |
| `Ancillary.DisplayKindBalanced` | src/os/unix/udsocket/cmsg/ancillary/mod.rs:133-140 | corrected definition: a level or type error message opens and closes exactly one parenthesis |
| `Ancillary.DisplayErrorCorrected` | src/os/unix/udsocket/cmsg/ancillary/mod.rs:80-85 | corrected definition: a parse error displays as its corrected kind, which is the as-written text plus ")" for level and type errors |
| `Ancillary.DisplaySizeMismatchShape` | src/os/unix/udsocket/cmsg/ancillary/mod.rs:157-162 | the size-mismatch message (`DisplaySizeMismatch`) starts with "ancillary payload size mismatch" and ends with the ")" that closes it |
| `Ancillary.DetailInjective` | src/os/unix/udsocket/cmsg/ancillary/mod.rs:157-162 | the closed text "expected E, got G)" determines `E`, its presence and `G`; this is the form the size-mismatch message and the corrected display use |
| `Ancillary.DisplaySizeMismatchInjective` | src/os/unix/udsocket/cmsg/ancillary/mod.rs:157-162 | the size-mismatch message determines both the expected and the received size |
| `Ancillary.DisplaySizeMismatchBalanced` | src/os/unix/udsocket/cmsg/ancillary/mod.rs:157-162 | the size-mismatch message opens and closes exactly one parenthesis |
| `UnixLocalSocket.DecodeListenError` | src/os/unix/uds_local_socket/listener.rs:19-24 | "already exists" becomes a bare "address in use" error with no OS code; every other error is returned unchanged |
| `UnixLocalSocket.DecodeListenErrorIdempotent` | src/os/unix/uds_local_socket/listener.rs:19-24 | decoding twice equals decoding once, and a decoded error is never "already exists" |
| `UnixLocalSocket.BindWith` | src/os/unix/uds_local_socket/listener.rs:26-35 | an address-conversion error is returned as is; a bind error is returned decoded; on success the listener holds the bound socket and its guard holds an owned copy of the name iff reclamation was asked for |
| `UnixLocalSocket.Bind` | src/os/unix/uds_local_socket/listener.rs:41-44 | on success, dropping the listener would reclaim the owned name; it fails exactly when binding without reclamation would |
| `UnixLocalSocket.BindWithoutNameReclamation` | src/os/unix/uds_local_socket/listener.rs:45-48 | on success, dropping the listener reclaims nothing; it fails exactly when `bind` would |
| `UnixLocalSocket.BindWithoutReclamationIsBindThenForget` | src/local_socket/listener/trait.rs:21-24 | binding without reclamation equals `bind` followed by `do_not_reclaim_name_on_drop`, errors included |
| `UnixLocalSocket.Accept` | src/os/unix/uds_local_socket/listener.rs:49-53 | succeeds iff the system accept does, with a stream over the accepted descriptor and the peer address dropped; an error passes through unchanged |
| `UnixLocalSocket.SetNonblocking` | src/os/unix/uds_local_socket/listener.rs:54-57 | the result is the system's result, and the listener is unchanged |
| `UnixLocalSocket.DoNotReclaimNameOnDrop` | src/os/unix/uds_local_socket/listener.rs:58-60 | the socket is kept and nothing is reclaimed on drop any more |
| `UnixLocalSocket.DoNotReclaimIdempotent` | src/os/unix/uds_local_socket/listener.rs:58-60 | forgetting the guard twice equals forgetting it once |
| `UnixLocalSocket.IntoUnixListener` | src/os/unix/uds_local_socket/listener.rs:72-77 | the bare socket is released, and the guard dropped with the rest of the listener names nothing |
| `UnixLocalSocket.IntoOwnedFd` | src/os/unix/uds_local_socket/listener.rs:85-89 | the descriptor is the listener's socket |
| `UnixLocalSocket.FromOwnedFd` | src/os/unix/uds_local_socket/listener.rs:90-97 | the listener owns the given descriptor and reclaims nothing |
| `UnixLocalSocket.OwnedFdRoundTrip` | src/os/unix/uds_local_socket/listener.rs:85-97 | going out to a descriptor and back equals forgetting the guard; going in from a descriptor and out again gives the same descriptor |
| `UnixLocalSocket.AcceptStep` | src/os/unix/uds_local_socket/listener.rs:49-53 | one accept as the iterator drives it: the accept's result, with the listener unchanged |
| `UnixLocalSocket.IncomingYieldsAccepts` | src/local_socket/listener/trait.rs:73-82 | `incoming()` over a Unix listener yields, in order, `Some` of each accept's result, one per connection attempt, and leaves the listener unchanged |
| `ListenerTrait.IncomingOf` | src/local_socket/listener/trait.rs:59-61 | the iterator refers to the very listener it was built from |
| `ListenerTrait.Next` | src/local_socket/listener/trait.rs:80-82 | the item is always `Some`, and holds exactly one accept's result; the iterator continues with the listener as that accept left it |
| `ListenerTrait.SizeHint` | src/local_socket/listener/trait.rs:83-85 | the lower bound is `usize::MAX` and there is no upper bound |
| `ListenerTrait.Take` | src/local_socket/listener/trait.rs:78-87 | any number of `next` calls yields that many items, none of them `None`, so the iterator never ends (fused, infinite) |
| `ListenerTrait.TakeIsRepeatedAccept` | src/local_socket/listener/trait.rs:73-82 | the i-th item is the i-th accept on the listener as the previous accepts left it |
| `NamedPipeListener.BlockOnConnect` | src/os/windows/named_pipe/listener.rs:108-120 | Ok iff the connect call succeeded or failed with `ERROR_PIPE_CONNECTED`; any other failure returns that OS error |
| `NamedPipeListener.ReplacementRequest` | src/os/windows/named_pipe/listener.rs:87-91 | a replacement instance is requested with `first = false`, not overlapped, and the given nonblocking flag, with the listener's config, role and read mode |
| `NamedPipeListener.Accept` | src/os/windows/named_pipe/listener.rs:46-60 | succeeds iff both the wait and the creation do. On success it hands out the stored instance as a server stream and stores the new one. A failed wait makes no creation call; any failure leaves the listener unchanged. Config and flag never change, and the replacement uses the flag read at entry |
| `NamedPipeListener.SetNonblocking` | src/os/windows/named_pipe/listener.rs:76-85 | the stored flag becomes `b` even if applying it fails; `b` is applied to the stored instance with the read mode; the slot is unchanged; the result is the system's result |
| `NamedPipeListener.IntoOwnedHandle` | src/os/windows/named_pipe/listener.rs:102-106 | the handle is the stored instance |
| `NamedPipeListener.SetNonblockingGovernsNextInstance` | src/os/windows/named_pipe/listener.rs:49-53 | after `set_nonblocking(b)`, the next accept creates its replacement with flag `b` |
| `NamedPipeListener.AcceptAllRecycles` | src/os/windows/named_pipe/listener.rs:46-59 | over any run of accepts, each succeeds iff its wait and creation do. Each success hands out the instance the earlier accepts left in the slot. The listener ends with the last created instance and its config and flag unchanged |
| `NamedPipeListener.HandedOutOnce` | src/os/windows/named_pipe/listener.rs:33-59 | if the system returns fresh handles, no two successful accepts hand out the same instance |
| `NamedPipeListener.Create` | src/os/windows/named_pipe/listener/options.rs:162-172 | succeeds iff the first instance is created. The listener then has the owned config, the config's nonblocking flag, that instance in its slot, and the requested modes. A creation error propagates |
| `NamedPipeListener.CreateDuplex` | src/os/windows/named_pipe/listener/options.rs:175-177 | `create` with the same mode for both halves |
| `NamedPipeListener.CreateRecvOnly` | src/os/windows/named_pipe/listener/options.rs:180-184 | `create` with no send half |
| `NamedPipeListener.CreateSendOnly` | src/os/windows/named_pipe/listener/options.rs:187-191 | `create` with no receive half |
| `NamedPipeListener.CreatedListenerRequests` | src/os/windows/named_pipe/listener/options.rs:162-172 | a newly created listener recycles instances with the options' nonblocking flag and an owned config |
| `PipeOptions.New` | src/os/windows/named_pipe/listener/options.rs:93-107 | the defaults: empty path, byte mode, blocking, no instance limit, no write-through, no remote clients, 512-byte buffer hints, the default wait timeout, no security descriptor, not inheritable |
| `PipeOptions.Default` | src/os/windows/named_pipe/listener/options.rs:193-198 | `Default::default()` equals `new()` |
| `PipeOptions.Set` | src/os/windows/named_pipe/listener/options.rs:142-153 | a setter gives its field the new value and leaves every other field unchanged |
| `PipeOptions.SetPath` | src/os/windows/named_pipe/listener/options.rs:136-141 | the path setter replaces the path and nothing else |
| `PipeOptions.SetOwnValue` | src/os/windows/named_pipe/listener/options.rs:81-84 | setting a field to its current value leaves the table unchanged |
| `PipeOptions.SetLastWins` | src/os/windows/named_pipe/listener/options.rs:81-84 | of two setters on the same field, the later one wins |
| `PipeOptions.SetCommutes` | src/os/windows/named_pipe/listener/options.rs:81-84 | setters on different fields commute |
| `PipeOptions.ToOwned` | src/os/windows/named_pipe/listener/options.rs:111-134 | the copy borrows nothing, and each field is the original field made owned |
| `PipeOptions.ToOwnedKeepsValues` | src/os/windows/named_pipe/listener/options.rs:111-134 | the path keeps its text; a borrowed security descriptor becomes an owned copy of the same value; `None` stays `None`; every other field is unchanged |
| `PipeOptions.ToOwnedFixesStatic` | src/os/windows/named_pipe/listener/options.rs:111-134 | a table that borrows nothing is its own owned copy, so `to_owned` is idempotent |
| `WindowsLocalSocket.PipePath` | src/os/windows/local_socket/listener.rs:24-29 | a namespaced name becomes `\\.\pipe\` followed by the name; any other name is used unchanged |
| `WindowsLocalSocket.PipePathInjective` | src/os/windows/local_socket/listener.rs:24-29 | two names of the same kind map to the same pipe path only if their text is the same |
| `WindowsLocalSocket.BindOptions` | src/os/windows/local_socket/listener.rs:21-35 | the options have the pipe path; a given security descriptor is stored owned, otherwise the field stays `None`; every other field keeps its `new()` default |
| `WindowsLocalSocket.Bind` | src/os/windows/local_socket/listener.rs:18-37 | a name-conversion error or creation error propagates. On success the byte-mode pipe listener holds the first instance and the owned bind options, and is blocking |
| `WindowsLocalSocket.BindConfiguration` | src/os/windows/local_socket/listener.rs:21-36 | a bound listener's config has the owned pipe path, the owned security descriptor if one was given, and the defaults for everything else |
| `WindowsLocalSocket.Accept` | src/os/windows/local_socket/listener.rs:38-41 | the pipe listener's stream is wrapped on success; its error passes through unchanged; the pipe listener's new state is kept |
| `WindowsLocalSocket.SetNonblocking` | src/os/windows/local_socket/listener.rs:42-44 | the argument is forwarded to the pipe listener, and its result is returned |

## Left out

- Name resolution is not modelled. Converting a value to a local socket name
  (`to_local_socket_name`) and `name_to_addr` are outcomes or oracles.
- `ReclaimGuard` itself is not part of this model. It is modelled as the
  optional name that dropping the listener would unlink. Its drop (the
  unlink, with errors ignored) and `forget` are taken to empty that option.
- The instance-creation internals (`create_instance` on the options,
  `_create`) are not part of this model. This includes the check that
  rejects a message-mode reader over a byte-mode pipe. Creation is an
  outcome. The config `_create` returns is taken to be `to_owned()` of the
  options.
- `PipeStreamRole::get_for_rm_sm` is not part of this model. A role is
  identified by its pair of mode markers.
- `set_nonblocking_given_readmode` and the Unix socket's own nonblocking
  flag are system calls, modelled as outcomes.
- UnixLocalSocket.SetNonblocking: does not model the change to the socket's
  nonblocking flag, because that flag lives in the kernel. Only the
  pass-through of the result is stated.
- Mutex locking and poisoning, and the atomic flag's memory ordering. Every
  operation is one sequential step. The concurrency detector is not part of
  this model.
- WTF-16 conversion of paths is not modelled: paths stay character
  sequences.
- WindowsLocalSocket.PipePath: models `PathBuf` collection as plain
  prefixing. For a namespaced name that is itself absolute or prefixed, such
  as `C:\x`, the code's `PathBuf` discards the `\\.\pipe\` part and yields
  `C:\x`. The model yields `\\.\pipe\C:\x`, because Windows path-prefix
  parsing is not part of this model.
- `WaitTimeout` is not part of this model beyond its default. The security
  descriptor is an opaque value. Security-descriptor construction and the
  handle and descriptor wrappers are raw system calls.
- The `println!` of the pipe path in the Windows bind (debug output only).
- `Debug` implementations, `AsFd`, the Tokio variants, the credential and
  file-descriptor control-message submodules, and the catch-all dispatcher.
- The named-pipe listener's own `incoming` iterator is not part of this
  model. `NamedPipeListener.AcceptAll` states runs of accepts directly.

## Findings

| source | as written | input that shows it | evidently intended | confidence | as-written member | corrected member |
|---|---|---|---|---|---|---|
| src/os/unix/udsocket/cmsg/ancillary/mod.rs:133-140 | a level or type error is written as "wrong cmsg_level (" + "expected E, " + "got G", and the parenthesis is never closed | `WrongLevel{expected: Some(1), got: 2}` displays as "wrong cmsg_level (expected 1, got 2" | close the parenthesis, "... got 2)", as the size-mismatch message at lines 157-162 does | high; not executed | `Ancillary.DisplayKindAsWrittenUnbalanced` | `Ancillary.DisplayKindBalanced` |

The as-written display is `Ancillary.DisplayKindAsWritten`, which
`Ancillary.DisplayError` uses as the code does. The corrected display is
`Ancillary.DisplayKind`, used by `Ancillary.DisplayErrorCorrected`.
