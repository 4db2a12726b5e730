/** Header validation for Unix-domain-socket control messages and the error
    algebra that goes with it (src/os/unix/udsocket/cmsg/ancillary/mod.rs).

    A validator either hands the message back unchanged or returns an error
    that also hands the message back, so that a caller can retry the message
    with another parser. */
module Ancillary {
  import opened Results
  import opened Decimal

  newtype byte = x: int | 0 <= x < 0x100

  /** The C `int` used for control-message levels and types. */
  newtype CInt = x: int | -0x8000_0000 <= x < 0x8000_0000

  /** The socket-level protocol number `SOL_SOCKET`, the only level the
      validators accept. This is the Linux value; BSD-family systems use 0xffff. */
  const SOL_SOCKET: CInt := 1

  /** A control message: its `cmsg_level`, its `cmsg_type` and its payload. */
  datatype Cmsg = Cmsg(level: CInt, msgType: CInt, data: seq<byte>)

  /** Why a control message could not be parsed. `expected` is `None` when
      several values would have been accepted. */
  datatype ParseErrorKind<E> =
    | WrongLevel(expected: Option<CInt>, got: CInt)
    | WrongType(expected: Option<CInt>, got: CInt)
    | MalformedPayload(payload: E)

  /** A parse error, returning ownership of the message to the caller. */
  datatype ParseError<E> = ParseError(cmsg: Cmsg, kind: ParseErrorKind<E>)

  type ParseResult<T, E> = Result<T, ParseError<E>>

  /** The payload error for a message whose size is not the one the
      ancillary data type needs. */
  datatype SizeMismatch = SizeMismatch(expected: nat, got: nat)

  // ---------------------------------------------------------------------
  // Error algebra
  // ---------------------------------------------------------------------

  /** Pairs an error kind with the message it is about. */
  function Wrap<E>(kind: ParseErrorKind<E>, cmsg: Cmsg): (r: ParseError<E>)
    ensures r.cmsg == cmsg && r.kind == kind
  {
    ParseError(cmsg, kind)
  }

  /** Maps the payload error type; the level and type errors carry over
      field for field. */
  function MapKindPayloadErr<E, F>(kind: ParseErrorKind<E>, f: E -> F): (r: ParseErrorKind<F>)
    ensures r.MalformedPayload? <==> kind.MalformedPayload?
    ensures r.WrongLevel? <==> kind.WrongLevel?
    ensures kind.MalformedPayload? ==> r.payload == f(kind.payload)
    ensures !kind.MalformedPayload? ==> r.expected == kind.expected && r.got == kind.got
  {
    match kind
    case MalformedPayload(e) => MalformedPayload(f(e))
    case WrongLevel(expected, got) => WrongLevel(expected, got)
    case WrongType(expected, got) => WrongType(expected, got)
  }

  /** Maps the payload error type of a parse error, keeping its message. */
  function MapPayloadErr<E, F>(err: ParseError<E>, f: E -> F): (r: ParseError<F>)
    ensures r.cmsg == err.cmsg
    ensures r.kind == MapKindPayloadErr(err.kind, f)
  {
    ParseError(err.cmsg, MapKindPayloadErr(err.kind, f))
  }

  /** Mapping with the identity changes nothing. */
  lemma MapKindPayloadErrIdentity<E>(kind: ParseErrorKind<E>)
    ensures MapKindPayloadErr(kind, (e: E) => e) == kind
  {
  }

  /** Mapping twice is mapping once with the composition. */
  lemma MapKindPayloadErrCompose<E, F, G>(kind: ParseErrorKind<E>, f: E -> F, g: F -> G)
    ensures MapKindPayloadErr(MapKindPayloadErr(kind, f), g) == MapKindPayloadErr(kind, (e: E) => g(f(e)))
  {
  }

  /** Wrapping and mapping commute: the message is never touched. */
  lemma WrapThenMap<E, F>(kind: ParseErrorKind<E>, cmsg: Cmsg, f: E -> F)
    ensures MapPayloadErr(Wrap(kind, cmsg), f) == Wrap(MapKindPayloadErr(kind, f), cmsg)
  {
  }

  // ---------------------------------------------------------------------
  // Validators
  // ---------------------------------------------------------------------

  function CheckLevel<E>(cmsg: Cmsg): (r: ParseResult<Cmsg, E>)
    ensures r.Ok? <==> cmsg.level == SOL_SOCKET
    ensures r.Ok? ==> r.value == cmsg
    ensures r.Err? ==> r.error.cmsg == cmsg
    ensures r.Err? ==> r.error.kind == WrongLevel(Some(SOL_SOCKET), cmsg.level)
  {
    var got := cmsg.level;
    if got != SOL_SOCKET then Err(Wrap(WrongLevel(Some(SOL_SOCKET), got), cmsg))
    else Ok(cmsg)
  }

  function CheckType<E>(cmsg: Cmsg, expected: CInt): (r: ParseResult<Cmsg, E>)
    ensures r.Ok? <==> cmsg.msgType == expected
    ensures r.Ok? ==> r.value == cmsg
    ensures r.Err? ==> r.error.cmsg == cmsg
    ensures r.Err? ==> r.error.kind == WrongType(Some(expected), cmsg.msgType)
  {
    var got := cmsg.msgType;
    if got != expected then Err(Wrap(WrongType(Some(expected), got), cmsg))
    else Ok(cmsg)
  }

  /** The level is checked first, so a message wrong in both respects is
      reported as a level error. */
  function CheckLevelAndType<E>(cmsg: Cmsg, expected: CInt): (r: ParseResult<Cmsg, E>)
    ensures r.Ok? <==> cmsg.level == SOL_SOCKET && cmsg.msgType == expected
    ensures r.Ok? ==> r.value == cmsg
    ensures r.Err? ==> r.error.cmsg == cmsg
    ensures cmsg.level != SOL_SOCKET ==> r.Err? && r.error.kind == WrongLevel(Some(SOL_SOCKET), cmsg.level)
    ensures cmsg.level == SOL_SOCKET && cmsg.msgType != expected ==>
              r.Err? && r.error.kind == WrongType(Some(expected), cmsg.msgType)
  {
    match CheckLevel<E>(cmsg)
    case Err(e) => Err(e)
    case Ok(c) => CheckType(c, expected)
  }

  /** `fromSize` is the payload error type's conversion from `SizeMismatch`. */
  function CheckSize<E>(cmsg: Cmsg, expected: nat, fromSize: SizeMismatch -> E): (r: ParseResult<Cmsg, E>)
    ensures r.Ok? <==> |cmsg.data| == expected
    ensures r.Ok? ==> r.value == cmsg
    ensures r.Err? ==> r.error.cmsg == cmsg
    ensures r.Err? ==> r.error.kind == MalformedPayload(fromSize(SizeMismatch(expected, |cmsg.data|)))
  {
    var got := |cmsg.data|;
    if got != expected then Err(Wrap(MalformedPayload(fromSize(SizeMismatch(expected, got))), cmsg))
    else Ok(cmsg)
  }

  /** Every validator gives the very message it was handed back to the
      caller, whether it accepts it or not, and mapping the payload error
      keeps it; checking the returned message again gives the same verdict,
      so a caller can retry it with another parser. */
  lemma ValidatorsReturnTheMessage<E, F>(cmsg: Cmsg, t: CInt, n: nat, fromSize: SizeMismatch -> E, f: E -> F)
    ensures CheckLevel<E>(cmsg).Ok? ==> CheckLevel<E>(cmsg).value == cmsg
    ensures CheckLevel<E>(cmsg).Err? ==>
              MapPayloadErr(CheckLevel<E>(cmsg).error, f).cmsg == cmsg
              && CheckLevel<E>(CheckLevel<E>(cmsg).error.cmsg) == CheckLevel<E>(cmsg)
    ensures CheckType<E>(cmsg, t).Ok? ==> CheckType<E>(cmsg, t).value == cmsg
    ensures CheckType<E>(cmsg, t).Err? ==>
              MapPayloadErr(CheckType<E>(cmsg, t).error, f).cmsg == cmsg
              && CheckType<E>(CheckType<E>(cmsg, t).error.cmsg, t) == CheckType<E>(cmsg, t)
    ensures CheckLevelAndType<E>(cmsg, t).Ok? ==> CheckLevelAndType<E>(cmsg, t).value == cmsg
    ensures CheckLevelAndType<E>(cmsg, t).Err? ==>
              MapPayloadErr(CheckLevelAndType<E>(cmsg, t).error, f).cmsg == cmsg
              && CheckLevelAndType<E>(CheckLevelAndType<E>(cmsg, t).error.cmsg, t) == CheckLevelAndType<E>(cmsg, t)
    ensures CheckSize(cmsg, n, fromSize).Ok? ==> CheckSize(cmsg, n, fromSize).value == cmsg
    ensures CheckSize(cmsg, n, fromSize).Err? ==>
              MapPayloadErr(CheckSize(cmsg, n, fromSize).error, f).cmsg == cmsg
              && CheckSize(CheckSize(cmsg, n, fromSize).error.cmsg, n, fromSize) == CheckSize(cmsg, n, fromSize)
  {
  }

  /** Running the combined check and then the size check accepts exactly the
      messages of the right level, type and size. */
  lemma ChecksCompose<E>(cmsg: Cmsg, t: CInt, n: nat, fromSize: SizeMismatch -> E)
    ensures (match CheckLevelAndType<E>(cmsg, t)
             case Ok(c) => CheckSize(c, n, fromSize).Ok?
             case Err(_) => false)
        <==> cmsg.level == SOL_SOCKET && cmsg.msgType == t && |cmsg.data| == n
  {
  }

  // ---------------------------------------------------------------------
  // Display
  // ---------------------------------------------------------------------

  function KindBase<E>(kind: ParseErrorKind<E>): string {
    match kind
    case WrongLevel(_, _) => "wrong cmsg_level"
    case WrongType(_, _) => "wrong cmsg_type"
    case MalformedPayload(_) => "malformed control message"
  }

  function Widen(o: Option<CInt>): (r: Option<int>)
    ensures r.Some? <==> o.Some?
    ensures o.Some? ==> r.value == o.value as int
  {
    match o
    case Some(v) => Some(v as int)
    case None => None
  }

  /** The text after an opening parenthesis: "expected E, " when there is an
      expected value, then "got G", then `close`. */
  function Detail(expected: Option<int>, got: int, close: string): string {
    match expected
    case Some(e) => "expected " + (IntToString(e) + (", got " + (IntToString(got) + close)))
    case None => "got " + (IntToString(got) + close)
  }

  /** The kind's message exactly as the source writes it: the parenthesis
      opened after a level or type error's base text is never closed. */
  function DisplayKindAsWritten<E>(kind: ParseErrorKind<E>, showPayload: E -> string): string
  {
    match kind
    case WrongLevel(expected, got) => KindBase(kind) + (" (" + Detail(Widen(expected), got as int, ""))
    case WrongType(expected, got) => KindBase(kind) + (" (" + Detail(Widen(expected), got as int, ""))
    case MalformedPayload(e) => KindBase(kind) + (": " + showPayload(e))
  }

  /** The kind's message with the parenthesis closed, in the format the
      size-mismatch message uses: the message as written, plus ")" for a
      level or type error. */
  function DisplayKind<E>(kind: ParseErrorKind<E>, showPayload: E -> string): (s: string)
    ensures kind.MalformedPayload? ==> s == DisplayKindAsWritten(kind, showPayload)
    ensures !kind.MalformedPayload? ==> s == DisplayKindAsWritten(kind, showPayload) + ")"
  {
    var base := KindBase(kind);
    match kind
    case WrongLevel(expected, got) =>
      WrappedDetailClose(base, Widen(expected), got as int);
      base + (" (" + Detail(Widen(expected), got as int, ")"))
    case WrongType(expected, got) =>
      WrappedDetailClose(base, Widen(expected), got as int);
      base + (" (" + Detail(Widen(expected), got as int, ")"))
    case MalformedPayload(e) => base + (": " + showPayload(e))
  }

  /** Closing a level, type or size message afterwards is the same as
      closing its detail text in place. */
  lemma WrappedDetailClose(base: string, expected: Option<int>, got: int)
    ensures (base + (" (" + Detail(expected, got, ""))) + ")" == base + (" (" + Detail(expected, got, ")"))
  {
    var g := IntToString(got);
    assert g + "" == g;
  }

  /** A parse error displays as its kind, as the source writes it, so a
      level or type error's message never ends with ")". */
  function DisplayError<E>(err: ParseError<E>, showPayload: E -> string): (s: string)
    ensures s == DisplayKindAsWritten(err.kind, showPayload)
    ensures !err.kind.MalformedPayload? ==> |s| > 0 && s[|s| - 1] != ')'
  {
    DisplayKindAsWrittenUnclosed(err.kind, showPayload);
    DisplayKindAsWritten(err.kind, showPayload)
  }

  /** A parse error displayed with the corrected kind message. */
  function DisplayErrorCorrected<E>(err: ParseError<E>, showPayload: E -> string): (s: string)
    ensures err.kind.MalformedPayload? ==> s == DisplayError(err, showPayload)
    ensures !err.kind.MalformedPayload? ==> s == DisplayError(err, showPayload) + ")"
  {
    DisplayKind(err.kind, showPayload)
  }

  const SIZE_MISMATCH_BASE: string := "ancillary payload size mismatch"

  function DisplaySizeMismatch(m: SizeMismatch): string {
    SIZE_MISMATCH_BASE + (" (" + Detail(Some(m.expected), m.got, ")"))
  }

  // ---------------------------------------------------------------------
  // What the messages determine
  // ---------------------------------------------------------------------

  lemma StripPrefix(p: string, x: string, y: string)
    requires p + x == p + y
    ensures x == y
  {
    assert x == (p + x)[|p|..];
    assert y == (p + y)[|p|..];
  }

  /** A rendered integer followed by ")" determines the integer. */
  lemma ClosedNumeralInjective(a: int, b: int)
    requires IntToString(a) + ")" == IntToString(b) + ")"
    ensures a == b
  {
    NumeralPrefixUnique(IntToString(a), ")", IntToString(b), ")");
    IntToStringInjective(a, b);
  }

  /** The first character of the detail text tells whether an expected
      value was written. */
  lemma DetailFirstChar(expected: Option<int>, got: int, close: string)
    ensures |Detail(expected, got, close)| > 0
    ensures Detail(expected, got, close)[0] == (if expected.Some? then 'e' else 'g')
  {
  }

  /** The closed detail text determines the expected and received values. */
  lemma DetailInjective(e1: Option<int>, g1: int, e2: Option<int>, g2: int)
    requires Detail(e1, g1, ")") == Detail(e2, g2, ")")
    ensures e1 == e2 && g1 == g2
  {
    DetailFirstChar(e1, g1, ")");
    DetailFirstChar(e2, g2, ")");
    var tail1 := IntToString(g1) + ")";
    var tail2 := IntToString(g2) + ")";
    if e1.Some? {
      var x1 := IntToString(e1.value);
      var x2 := IntToString(e2.value);
      StripPrefix("expected ", x1 + (", got " + tail1), x2 + (", got " + tail2));
      NumeralPrefixUnique(x1, ", got " + tail1, x2, ", got " + tail2);
      IntToStringInjective(e1.value, e2.value);
      StripPrefix(", got ", tail1, tail2);
    } else {
      StripPrefix("got ", tail1, tail2);
    }
    ClosedNumeralInjective(g1, g2);
  }

  /** The detail text as the source writes it, with nothing after the
      received value, determines the expected and received values. */
  lemma DetailOpenInjective(e1: Option<int>, g1: int, e2: Option<int>, g2: int)
    requires Detail(e1, g1, "") == Detail(e2, g2, "")
    ensures e1 == e2 && g1 == g2
  {
    DetailFirstChar(e1, g1, "");
    DetailFirstChar(e2, g2, "");
    var tail1 := IntToString(g1) + "";
    var tail2 := IntToString(g2) + "";
    if e1.Some? {
      var x1 := IntToString(e1.value);
      var x2 := IntToString(e2.value);
      StripPrefix("expected ", x1 + (", got " + tail1), x2 + (", got " + tail2));
      NumeralPrefixUnique(x1, ", got " + tail1, x2, ", got " + tail2);
      IntToStringInjective(e1.value, e2.value);
      StripPrefix(", got ", tail1, tail2);
    } else {
      StripPrefix("got ", tail1, tail2);
    }
    assert tail1 == IntToString(g1) && tail2 == IntToString(g2);
    IntToStringInjective(g1, g2);
  }

  lemma PrefixOfConcat(p: string, x: string)
    ensures (p + x)[..|p|] == p
  {
  }

  /** As the source writes it, the message starts with the base text of its
      variant; its first character separates payload errors from level and
      type errors, and its twelfth separates level errors from type errors. */
  lemma DisplayKindAsWrittenShape<E>(kind: ParseErrorKind<E>, showPayload: E -> string)
    ensures |DisplayKindAsWritten(kind, showPayload)| > |KindBase(kind)| > 11
    ensures DisplayKindAsWritten(kind, showPayload)[..|KindBase(kind)|] == KindBase(kind)
    ensures DisplayKindAsWritten(kind, showPayload)[0] == (if kind.MalformedPayload? then 'm' else 'w')
    ensures !kind.MalformedPayload? ==>
              DisplayKindAsWritten(kind, showPayload)[11] == (if kind.WrongLevel? then 'l' else 't')
  {
    var base := KindBase(kind);
    var rest := match kind
      case MalformedPayload(e) => ": " + showPayload(e)
      case _ => " (" + Detail(Widen(kind.expected), kind.got as int, "");
    assert DisplayKindAsWritten(kind, showPayload) == base + rest;
    PrefixOfConcat(base, rest);
    KindBaseChars(kind);
    assert (base + rest)[0] == base[0] && (base + rest)[11] == base[11];
  }

  /** The base texts differ in their first and twelfth characters. */
  lemma KindBaseChars<E>(kind: ParseErrorKind<E>)
    ensures |KindBase(kind)| > 11
    ensures KindBase(kind)[0] == (if kind.MalformedPayload? then 'm' else 'w')
    ensures !kind.MalformedPayload? ==> KindBase(kind)[11] == (if kind.WrongLevel? then 'l' else 't')
  {
  }

  /** The same for the corrected message, which only adds ")" at the end. */
  lemma DisplayKindShape<E>(kind: ParseErrorKind<E>, showPayload: E -> string)
    ensures |DisplayKind(kind, showPayload)| > |KindBase(kind)| > 11
    ensures DisplayKind(kind, showPayload)[..|KindBase(kind)|] == KindBase(kind)
    ensures DisplayKind(kind, showPayload)[0] == (if kind.MalformedPayload? then 'm' else 'w')
    ensures !kind.MalformedPayload? ==>
              DisplayKind(kind, showPayload)[11] == (if kind.WrongLevel? then 'l' else 't')
  {
    DisplayKindAsWrittenShape(kind, showPayload);
    var w := DisplayKindAsWritten(kind, showPayload);
    if !kind.MalformedPayload? {
      PrefixOfConcat(w[..|KindBase(kind)|], w[|KindBase(kind)|..] + ")");
      assert w + ")" == w[..|KindBase(kind)|] + (w[|KindBase(kind)|..] + ")");
    }
  }

  /** As the source writes it, distinct level and type errors display
      differently, and so do payload errors whose payloads display
      differently: the message loses nothing. */
  lemma DisplayKindAsWrittenInjective<E>(a: ParseErrorKind<E>, b: ParseErrorKind<E>, showPayload: E -> string)
    requires a.MalformedPayload? && b.MalformedPayload? ==>
               (showPayload(a.payload) == showPayload(b.payload) ==> a.payload == b.payload)
    requires DisplayKindAsWritten(a, showPayload) == DisplayKindAsWritten(b, showPayload)
    ensures a == b
  {
    DisplayKindAsWrittenShape(a, showPayload);
    DisplayKindAsWrittenShape(b, showPayload);
    assert KindBase(a) == KindBase(b);
    if a.MalformedPayload? {
      StripPrefix(KindBase(a), ": " + showPayload(a.payload), ": " + showPayload(b.payload));
      StripPrefix(": ", showPayload(a.payload), showPayload(b.payload));
    } else {
      var d1 := Detail(Widen(a.expected), a.got as int, "");
      var d2 := Detail(Widen(b.expected), b.got as int, "");
      StripPrefix(KindBase(a), " (" + d1, " (" + d2);
      StripPrefix(" (", d1, d2);
      DetailOpenInjective(Widen(a.expected), a.got as int, Widen(b.expected), b.got as int);
    }
  }

  /** The corrected message loses nothing either. */
  lemma DisplayKindInjective<E>(a: ParseErrorKind<E>, b: ParseErrorKind<E>, showPayload: E -> string)
    requires a.MalformedPayload? && b.MalformedPayload? ==>
               (showPayload(a.payload) == showPayload(b.payload) ==> a.payload == b.payload)
    requires DisplayKind(a, showPayload) == DisplayKind(b, showPayload)
    ensures a == b
  {
    DisplayKindShape(a, showPayload);
    DisplayKindShape(b, showPayload);
    assert KindBase(a) == KindBase(b);
    if a.MalformedPayload? {
      StripPrefix(KindBase(a), ": " + showPayload(a.payload), ": " + showPayload(b.payload));
      StripPrefix(": ", showPayload(a.payload), showPayload(b.payload));
    } else {
      var d1 := Detail(Widen(a.expected), a.got as int, ")");
      var d2 := Detail(Widen(b.expected), b.got as int, ")");
      StripPrefix(KindBase(a), " (" + d1, " (" + d2);
      StripPrefix(" (", d1, d2);
      DetailInjective(Widen(a.expected), a.got as int, Widen(b.expected), b.got as int);
    }
  }

  /** The size-mismatch message determines both sizes. */
  lemma DisplaySizeMismatchInjective(a: SizeMismatch, b: SizeMismatch)
    requires DisplaySizeMismatch(a) == DisplaySizeMismatch(b)
    ensures a == b
  {
    var d1 := Detail(Some(a.expected), a.got, ")");
    var d2 := Detail(Some(b.expected), b.got, ")");
    StripPrefix(SIZE_MISMATCH_BASE, " (" + d1, " (" + d2);
    StripPrefix(" (", d1, d2);
    DetailInjective(Some(a.expected), a.got, Some(b.expected), b.got);
  }

  /** As the source writes it, a level or type error's message ends with
      the last digit of the received value, never with ")". */
  lemma DisplayKindAsWrittenUnclosed<E>(kind: ParseErrorKind<E>, showPayload: E -> string)
    ensures !kind.MalformedPayload? ==>
              |DisplayKindAsWritten(kind, showPayload)| > 0
              && IsDigit(DisplayKindAsWritten(kind, showPayload)[|DisplayKindAsWritten(kind, showPayload)| - 1])
  {
  }

  /** The size-mismatch message starts with its base text and ends with
      the ")" that closes it. */
  lemma DisplaySizeMismatchShape(m: SizeMismatch)
    ensures |DisplaySizeMismatch(m)| > |SIZE_MISMATCH_BASE|
    ensures DisplaySizeMismatch(m)[..|SIZE_MISMATCH_BASE|] == SIZE_MISMATCH_BASE
    ensures DisplaySizeMismatch(m)[|DisplaySizeMismatch(m)| - 1] == ')'
  {
    PrefixOfConcat(SIZE_MISMATCH_BASE, " (" + Detail(Some(m.expected), m.got, ")"));
  }

  // ---------------------------------------------------------------------
  // Parenthesis balance
  // ---------------------------------------------------------------------

  /** Occurrences of `c` in `s`. */
  function Count(s: string, c: char): nat
    decreases |s|
  {
    if |s| == 0 then 0 else (if s[0] == c then 1 else 0) + Count(s[1..], c)
  }

  lemma {:induction false} CountConcat(a: string, b: string, c: char)
    ensures Count(a + b, c) == Count(a, c) + Count(b, c)
    decreases |a|
  {
    if |a| > 0 {
      assert (a + b)[1..] == a[1..] + b;
      CountConcat(a[1..], b, c);
    } else {
      assert a + b == b;
    }
  }

  lemma {:induction false} CountAbsent(s: string, c: char)
    requires c !in s
    ensures Count(s, c) == 0
    decreases |s|
  {
    if |s| > 0 {
      assert s[0] != c;
      assert forall x :: x in s[1..] ==> x in s;
      CountAbsent(s[1..], c);
    }
  }

  /** A string free of parentheses, followed by `rest`, has the
      parentheses of `rest`. */
  lemma ParenFreePrefix(p: string, rest: string)
    requires '(' !in p && ')' !in p
    ensures Count(p + rest, '(') == Count(rest, '(')
    ensures Count(p + rest, ')') == Count(rest, ')')
  {
    CountAbsent(p, '(');
    CountAbsent(p, ')');
    CountConcat(p, rest, '(');
    CountConcat(p, rest, ')');
  }

  lemma DetailParens(expected: Option<int>, got: int, close: string)
    ensures Count(Detail(expected, got, close), '(') == Count(close, '(')
    ensures Count(Detail(expected, got, close), ')') == Count(close, ')')
  {
    var g := IntToString(got);
    NumeralHasNoParens(g);
    ParenFreePrefix(g, close);
    ParenFreePrefix("got ", g + close);
    if expected.Some? {
      var x := IntToString(expected.value);
      NumeralHasNoParens(x);
      ParenFreePrefix(", got ", g + close);
      ParenFreePrefix(x, ", got " + (g + close));
      ParenFreePrefix("expected ", x + (", got " + (g + close)));
    }
  }

  /** The parentheses of a level, type or size message are those of the
      opening " (" and of `close`. */
  lemma WrappedDetailParens(base: string, expected: Option<int>, got: int, close: string)
    requires '(' !in base && ')' !in base
    ensures Count(base + (" (" + Detail(expected, got, close)), '(') == 1 + Count(close, '(')
    ensures Count(base + (" (" + Detail(expected, got, close)), ')') == Count(close, ')')
  {
    var d := Detail(expected, got, close);
    DetailParens(expected, got, close);
    CountConcat(" (", d, '(');
    CountConcat(" (", d, ')');
    assert Count(" (", '(') == 1 && Count(" (", ')') == 0;
    ParenFreePrefix(base, " (" + d);
  }

  lemma KindBaseParenFree<E>(kind: ParseErrorKind<E>)
    ensures '(' !in KindBase(kind) && ')' !in KindBase(kind)
  {
  }

  lemma SizeMismatchBaseParenFree()
    ensures '(' !in SIZE_MISMATCH_BASE && ')' !in SIZE_MISMATCH_BASE
  {
  }

  lemma CloseCounts()
    ensures Count("", '(') == 0 && Count("", ')') == 0
    ensures Count(")", '(') == 0 && Count(")", ')') == 1
  {
  }

  /** As the source writes it, a level or type error opens one parenthesis
      and closes none. */
  lemma DisplayKindAsWrittenUnbalanced<E>(kind: ParseErrorKind<E>, showPayload: E -> string)
    requires !kind.MalformedPayload?
    ensures Count(DisplayKindAsWritten(kind, showPayload), '(') == 1
    ensures Count(DisplayKindAsWritten(kind, showPayload), ')') == 0
  {
    KindBaseParenFree(kind);
    CloseCounts();
    match kind
    case WrongLevel(expected, got) =>
      WrappedDetailParens("wrong cmsg_level", Widen(expected), got as int, "");
    case WrongType(expected, got) =>
      WrappedDetailParens("wrong cmsg_type", Widen(expected), got as int, "");
  }

  /** With the parenthesis closed, a level or type error opens and closes
      exactly one. */
  lemma DisplayKindBalanced<E>(kind: ParseErrorKind<E>, showPayload: E -> string)
    requires !kind.MalformedPayload?
    ensures Count(DisplayKind(kind, showPayload), '(') == 1
    ensures Count(DisplayKind(kind, showPayload), ')') == 1
  {
    KindBaseParenFree(kind);
    CloseCounts();
    match kind
    case WrongLevel(expected, got) =>
      WrappedDetailParens("wrong cmsg_level", Widen(expected), got as int, ")");
    case WrongType(expected, got) =>
      WrappedDetailParens("wrong cmsg_type", Widen(expected), got as int, ")");
  }

  /** The size-mismatch message opens and closes exactly one parenthesis. */
  lemma DisplaySizeMismatchBalanced(m: SizeMismatch)
    ensures Count(DisplaySizeMismatch(m), '(') == 1
    ensures Count(DisplaySizeMismatch(m), ')') == 1
  {
    SizeMismatchBaseParenFree();
    CloseCounts();
    WrappedDetailParens(SIZE_MISMATCH_BASE, Some(m.expected), m.got, ")");
  }

  /** A concrete message as the source writes it: it ends with the
      received level, not with a closing parenthesis. */
  lemma DisplayKindAsWrittenExample(showPayload: int -> string)
    ensures DisplayKindAsWritten(WrongLevel(Some(1), 2), showPayload) == "wrong cmsg_level (expected 1, got 2"
  {
    var kind: ParseErrorKind<int> := WrongLevel(Some(1), 2);
    ExampleDetail();
    assert DisplayKindAsWritten(kind, showPayload) == "wrong cmsg_level" + (" (" + "expected 1, got 2");
    ExampleJoin();
  }

  lemma ExampleDetail()
    ensures Detail(Some(1), 2, "") == "expected 1, got 2"
  {
    assert IntToString(1) == "1";
    assert IntToString(2) == "2";
  }

  lemma ExampleJoin()
    ensures "wrong cmsg_level" + (" (" + "expected 1, got 2") == "wrong cmsg_level (expected 1, got 2"
  {
  }
}
