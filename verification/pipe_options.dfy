/** The named-pipe listener's creation options
    (src/os/windows/named_pipe/listener/options.rs): the default table, the
    single-field setters, and the conversion to a table that borrows
    nothing. Creating a listener from the options is in NamedPipeListener. */
module PipeOptions {
  import opened Results

  newtype u32 = x: int | 0 <= x < 0x1_0000_0000

  /** A count from 1 to 255. */
  newtype NonZeroU8 = x: int | 1 <= x < 0x100 witness 1

  /** How data is framed in the pipe. */
  datatype PipeMode = Bytes | Messages

  /** The default timeout clients use when connecting: the system default,
      or a number of milliseconds. */
  datatype WaitTimeout = DefaultWait | Millis(ms: u32)

  /** An access-control descriptor, treated as an opaque value. */
  datatype SecurityDescriptor = SecurityDescriptor(token: int)

  datatype Options = Options(
    path: Cow<string>,
    mode: PipeMode,
    nonblocking: bool,
    instanceLimit: Option<NonZeroU8>,
    writeThrough: bool,
    acceptRemote: bool,
    inputBufferSizeHint: u32,
    outputBufferSizeHint: u32,
    waitTimeout: WaitTimeout,
    securityDescriptor: Option<Cow<SecurityDescriptor>>,
    inheritable: bool)

  /** The names of the option fields. */
  datatype Field =
    | PathField
    | ModeField
    | NonblockingField
    | InstanceLimitField
    | WriteThroughField
    | AcceptRemoteField
    | InputBufferSizeHintField
    | OutputBufferSizeHintField
    | WaitTimeoutField
    | SecurityDescriptorField
    | InheritableField

  /** A value for one field, tagged with the field it belongs to. */
  datatype FieldValue =
    | PathIs(path: Cow<string>)
    | ModeIs(mode: PipeMode)
    | NonblockingIs(nonblocking: bool)
    | InstanceLimitIs(instanceLimit: Option<NonZeroU8>)
    | WriteThroughIs(writeThrough: bool)
    | AcceptRemoteIs(acceptRemote: bool)
    | InputBufferSizeHintIs(inputBufferSizeHint: u32)
    | OutputBufferSizeHintIs(outputBufferSizeHint: u32)
    | WaitTimeoutIs(waitTimeout: WaitTimeout)
    | SecurityDescriptorIs(securityDescriptor: Option<Cow<SecurityDescriptor>>)
    | InheritableIs(inheritable: bool)

  function FieldOf(v: FieldValue): Field {
    match v
    case PathIs(_) => PathField
    case ModeIs(_) => ModeField
    case NonblockingIs(_) => NonblockingField
    case InstanceLimitIs(_) => InstanceLimitField
    case WriteThroughIs(_) => WriteThroughField
    case AcceptRemoteIs(_) => AcceptRemoteField
    case InputBufferSizeHintIs(_) => InputBufferSizeHintField
    case OutputBufferSizeHintIs(_) => OutputBufferSizeHintField
    case WaitTimeoutIs(_) => WaitTimeoutField
    case SecurityDescriptorIs(_) => SecurityDescriptorField
    case InheritableIs(_) => InheritableField
  }

  /** Reads one field. */
  function Get(o: Options, f: Field): (v: FieldValue)
    ensures FieldOf(v) == f
  {
    match f
    case PathField => PathIs(o.path)
    case ModeField => ModeIs(o.mode)
    case NonblockingField => NonblockingIs(o.nonblocking)
    case InstanceLimitField => InstanceLimitIs(o.instanceLimit)
    case WriteThroughField => WriteThroughIs(o.writeThrough)
    case AcceptRemoteField => AcceptRemoteIs(o.acceptRemote)
    case InputBufferSizeHintField => InputBufferSizeHintIs(o.inputBufferSizeHint)
    case OutputBufferSizeHintField => OutputBufferSizeHintIs(o.outputBufferSizeHint)
    case WaitTimeoutField => WaitTimeoutIs(o.waitTimeout)
    case SecurityDescriptorField => SecurityDescriptorIs(o.securityDescriptor)
    case InheritableField => InheritableIs(o.inheritable)
  }

  /** Two option tables with the same fields are the same table. */
  lemma OptionsExtensional(a: Options, b: Options)
    requires forall f: Field :: Get(a, f) == Get(b, f)
    ensures a == b
  {
    assert Get(a, PathField) == Get(b, PathField);
    assert Get(a, ModeField) == Get(b, ModeField);
    assert Get(a, NonblockingField) == Get(b, NonblockingField);
    assert Get(a, InstanceLimitField) == Get(b, InstanceLimitField);
    assert Get(a, WriteThroughField) == Get(b, WriteThroughField);
    assert Get(a, AcceptRemoteField) == Get(b, AcceptRemoteField);
    assert Get(a, InputBufferSizeHintField) == Get(b, InputBufferSizeHintField);
    assert Get(a, OutputBufferSizeHintField) == Get(b, OutputBufferSizeHintField);
    assert Get(a, WaitTimeoutField) == Get(b, WaitTimeoutField);
    assert Get(a, SecurityDescriptorField) == Get(b, SecurityDescriptorField);
    assert Get(a, InheritableField) == Get(b, InheritableField);
  }

  /** `new()`: the default table. */
  function New(): (o: Options)
    ensures o.path == Borrowed("") && o.mode == Bytes && !o.nonblocking && o.instanceLimit == None
    ensures !o.writeThrough && !o.acceptRemote
    ensures o.inputBufferSizeHint == 512 && o.outputBufferSizeHint == 512
    ensures o.waitTimeout == DefaultWait
    ensures o.securityDescriptor == None && !o.inheritable
  {
    Options(
      path := Borrowed(""),
      mode := Bytes,
      nonblocking := false,
      instanceLimit := None,
      writeThrough := false,
      acceptRemote := false,
      inputBufferSizeHint := 512,
      outputBufferSizeHint := 512,
      waitTimeout := DefaultWait,
      securityDescriptor := None,
      inheritable := false)
  }

  /** `Default::default()` is `new()`. */
  function Default(): (o: Options)
    ensures o == New()
  {
    New()
  }

  /** The setter the builder provides for each field: replaces that field
      with the given value and nothing else. */
  function Set(o: Options, v: FieldValue): (r: Options)
    ensures Get(r, FieldOf(v)) == v
    ensures forall f: Field :: f != FieldOf(v) ==> Get(r, f) == Get(o, f)
  {
    match v
    case PathIs(x) => o.(path := x)
    case ModeIs(x) => o.(mode := x)
    case NonblockingIs(x) => o.(nonblocking := x)
    case InstanceLimitIs(x) => o.(instanceLimit := x)
    case WriteThroughIs(x) => o.(writeThrough := x)
    case AcceptRemoteIs(x) => o.(acceptRemote := x)
    case InputBufferSizeHintIs(x) => o.(inputBufferSizeHint := x)
    case OutputBufferSizeHintIs(x) => o.(outputBufferSizeHint := x)
    case WaitTimeoutIs(x) => o.(waitTimeout := x)
    case SecurityDescriptorIs(x) => o.(securityDescriptor := x)
    case InheritableIs(x) => o.(inheritable := x)
  }

  /** The `path` setter, given the path already converted to wide text. */
  function SetPath(o: Options, path: Cow<string>): (r: Options)
    ensures r.path == path
    ensures forall f: Field :: f != PathField ==> Get(r, f) == Get(o, f)
  {
    Set(o, PathIs(path))
  }

  /** Setting a field to the value it already has changes nothing. */
  lemma SetOwnValue(o: Options, f: Field)
    ensures Set(o, Get(o, f)) == o
  {
    OptionsExtensional(Set(o, Get(o, f)), o);
  }

  /** A later setter on the same field overrides an earlier one. */
  lemma SetLastWins(o: Options, v: FieldValue, w: FieldValue)
    requires FieldOf(v) == FieldOf(w)
    ensures Set(Set(o, v), w) == Set(o, w)
  {
    OptionsExtensional(Set(Set(o, v), w), Set(o, w));
  }

  /** Setters on different fields can be applied in either order. */
  lemma SetCommutes(o: Options, v: FieldValue, w: FieldValue)
    requires FieldOf(v) != FieldOf(w)
    ensures Set(Set(o, v), w) == Set(Set(o, w), v)
  {
    var a := Set(Set(o, v), w);
    var b := Set(Set(o, w), v);
    forall f: Field
      ensures Get(a, f) == Get(b, f)
    {
      if f == FieldOf(v) {
        assert Get(a, f) == v;
      } else if f == FieldOf(w) {
        assert Get(b, f) == w;
      } else {
        assert Get(a, f) == Get(o, f);
      }
    }
    OptionsExtensional(a, b);
  }

  /** A table that borrows nothing. */
  predicate IsStatic(o: Options) {
    o.path.Owned? && (o.securityDescriptor.Some? ==> o.securityDescriptor.value.Owned?)
  }

  /** The same field value, owned rather than borrowed. */
  function Owning(v: FieldValue): (r: FieldValue)
    ensures FieldOf(r) == FieldOf(v)
  {
    match v
    case PathIs(p) => PathIs(p.IntoOwned())
    case SecurityDescriptorIs(Some(d)) => SecurityDescriptorIs(Some(d.IntoOwned()))
    case _ => v
  }

  /** `to_owned`: a copy of every field that borrows nothing. */
  function ToOwned(o: Options): (r: Options)
    ensures IsStatic(r)
    ensures forall f: Field :: Get(r, f) == Owning(Get(o, f))
  {
    o.(path := o.path.IntoOwned(),
       securityDescriptor :=
         match o.securityDescriptor
         case Some(d) => Some(d.IntoOwned())
         case None => None)
  }

  /** `to_owned` keeps every value: only ownership changes, and only for
      the path and the security descriptor. */
  lemma ToOwnedKeepsValues(o: Options)
    ensures ToOwned(o).path.value == o.path.value
    ensures ToOwned(o).securityDescriptor.Some? <==> o.securityDescriptor.Some?
    ensures o.securityDescriptor.Some? ==>
              ToOwned(o).securityDescriptor.value.value == o.securityDescriptor.value.value
    ensures forall f: Field :: f != PathField && f != SecurityDescriptorField ==> Get(ToOwned(o), f) == Get(o, f)
  {
    assert Get(ToOwned(o), PathField) == Owning(Get(o, PathField));
    assert Get(ToOwned(o), SecurityDescriptorField) == Owning(Get(o, SecurityDescriptorField));
  }

  /** A table that borrows nothing is its own owned copy, so `to_owned` is
      idempotent. */
  lemma ToOwnedFixesStatic(o: Options)
    ensures IsStatic(o) ==> ToOwned(o) == o
    ensures ToOwned(ToOwned(o)) == ToOwned(o)
  {
  }
}
