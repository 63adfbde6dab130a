/** CUPTI status codes and the `Error` type built on them.

    A CUPTI call returns a `CUptiResult` status, a 32-bit code where 0 means
    success. `Error` wraps a NON-ZERO code, so any nonzero code, named or
    not, is an error that carries that code. */
module CuptiError {
  import opened Common
  import Utf8

  type NonZeroU32 = x: u32 | x != 0 witness 1

  /** `pub struct Error(NonZeroU32)` */
  datatype Error = Error(raw: NonZeroU32) {
    /** `Error::code` */
    function Code(): u32 { raw }
  }

  // ---------------------------------------------------------------------
  // Named constants
  //
  // `error_enum!` builds each constant as `NonZeroU32::new(value).unwrap()`
  // in a const context, so a zero value would not compile; here the
  // subset type `NonZeroU32` makes the same demand of every constant.
  // The values are those of CUPTI's `cupti_result.h`.
  // ---------------------------------------------------------------------

  const InvalidParameter: Error := Error(1)
  const InvalidDevice: Error := Error(2)
  const InvalidContext: Error := Error(3)
  const InvalidEventDomainID: Error := Error(4)
  const InvalidEventID: Error := Error(5)
  const InvalidEventName: Error := Error(6)
  const InvalidOperation: Error := Error(7)
  const OutOfMemory: Error := Error(8)
  const Hardware: Error := Error(9)
  const ParameterSizeNotSufficient: Error := Error(10)
  const ApiNotImplemented: Error := Error(11)
  const MaxLimitReached: Error := Error(12)
  const NotReady: Error := Error(13)
  const NotCompatible: Error := Error(14)
  const NotInitialized: Error := Error(15)
  const InvalidMetricID: Error := Error(16)
  const InvalidMetricName: Error := Error(17)
  const QueueEmpty: Error := Error(18)
  const InvalidHandle: Error := Error(19)
  const InvalidStream: Error := Error(20)
  const InvalidKind: Error := Error(21)
  const InvalidEventValue: Error := Error(22)
  const Disabled: Error := Error(23)
  const InvalidModule: Error := Error(24)
  const InvalidMetricValue: Error := Error(25)
  const HardwareBusy: Error := Error(26)
  const NotSupported: Error := Error(27)
  const UmProfilingNotSupported: Error := Error(28)
  const UmProfilingNotSupportedOnDevice: Error := Error(29)
  const UmProfilingNotSupportedOnNonP2PDevices: Error := Error(30)
  const UmProfilingNotSupportedWithMps: Error := Error(31)
  const CdpTracingNotSupported: Error := Error(32)
  const VirtualizedDeviceNotSupported: Error := Error(33)
  const CudaCompilerNotCompatible: Error := Error(34)
  const InsufficientPrivileges: Error := Error(35)
  const OldProfilerApiInitialized: Error := Error(36)
  const OpenaccUndefinedRoutine: Error := Error(37)
  const LegacyProfilerNotSupported: Error := Error(38)
  const MultipleSubscribersNotSupported: Error := Error(39)
  const VirtualizedDeviceInsufficientPrivileges: Error := Error(40)
  const ConfidentialComputingNotSupported: Error := Error(41)
  const CmpDeviceNotSupported: Error := Error(42)
  const MigDeviceNotSupported: Error := Error(43)
  const SliDeviceNotSupported: Error := Error(44)
  const WslDeviceNotSupported: Error := Error(45)
  const InvalidChipName: Error := Error(46)
  const Unknown: Error := Error(999)

  /** The constants `error_enum!` declares, with their names, in the
      order of its arms. The table is written as four consecutive groups
      so that each entry sits near the end of a short sequence display. */
  const NamedErrors: seq<(string, Error)> :=
    NamedErrors1To12 + NamedErrors13To24 + NamedErrors25To36 + NamedErrors37ToUnknown

  const NamedErrors1To12: seq<(string, Error)> := [
    ("InvalidParameter", InvalidParameter),
    ("InvalidDevice", InvalidDevice),
    ("InvalidContext", InvalidContext),
    ("InvalidEventDomainID", InvalidEventDomainID),
    ("InvalidEventID", InvalidEventID),
    ("InvalidEventName", InvalidEventName),
    ("InvalidOperation", InvalidOperation),
    ("OutOfMemory", OutOfMemory),
    ("Hardware", Hardware),
    ("ParameterSizeNotSufficient", ParameterSizeNotSufficient),
    ("ApiNotImplemented", ApiNotImplemented),
    ("MaxLimitReached", MaxLimitReached)
  ]

  const NamedErrors13To24: seq<(string, Error)> := [
    ("NotReady", NotReady),
    ("NotCompatible", NotCompatible),
    ("NotInitialized", NotInitialized),
    ("InvalidMetricID", InvalidMetricID),
    ("InvalidMetricName", InvalidMetricName),
    ("QueueEmpty", QueueEmpty),
    ("InvalidHandle", InvalidHandle),
    ("InvalidStream", InvalidStream),
    ("InvalidKind", InvalidKind),
    ("InvalidEventValue", InvalidEventValue),
    ("Disabled", Disabled),
    ("InvalidModule", InvalidModule)
  ]

  const NamedErrors25To36: seq<(string, Error)> := [
    ("InvalidMetricValue", InvalidMetricValue),
    ("HardwareBusy", HardwareBusy),
    ("NotSupported", NotSupported),
    ("UmProfilingNotSupported", UmProfilingNotSupported),
    ("UmProfilingNotSupportedOnDevice", UmProfilingNotSupportedOnDevice),
    ("UmProfilingNotSupportedOnNonP2PDevices", UmProfilingNotSupportedOnNonP2PDevices),
    ("UmProfilingNotSupportedWithMps", UmProfilingNotSupportedWithMps),
    ("CdpTracingNotSupported", CdpTracingNotSupported),
    ("VirtualizedDeviceNotSupported", VirtualizedDeviceNotSupported),
    ("CudaCompilerNotCompatible", CudaCompilerNotCompatible),
    ("InsufficientPrivileges", InsufficientPrivileges),
    ("OldProfilerApiInitialized", OldProfilerApiInitialized)
  ]

  const NamedErrors37ToUnknown: seq<(string, Error)> := [
    ("OpenaccUndefinedRoutine", OpenaccUndefinedRoutine),
    ("LegacyProfilerNotSupported", LegacyProfilerNotSupported),
    ("MultipleSubscribersNotSupported", MultipleSubscribersNotSupported),
    ("VirtualizedDeviceInsufficientPrivileges", VirtualizedDeviceInsufficientPrivileges),
    ("ConfidentialComputingNotSupported", ConfidentialComputingNotSupported),
    ("CmpDeviceNotSupported", CmpDeviceNotSupported),
    ("MigDeviceNotSupported", MigDeviceNotSupported),
    ("SliDeviceNotSupported", SliDeviceNotSupported),
    ("WslDeviceNotSupported", WslDeviceNotSupported),
    ("InvalidChipName", InvalidChipName),
    ("Unknown", Unknown)
  ]

  // ---------------------------------------------------------------------
  // The codes in the table
  // ---------------------------------------------------------------------

  /** The code of the `k`-th constant: 1 to 46 in order, then 999. */
  function NamedCodeAt(k: nat): u32
    requires k < 47
  {
    if k < 46 then k + 1 else 999
  }

  // The codes group by group; each group is short enough for the
  // solver to read off every entry.
  lemma NamedErrors1To12Codes(k: nat)
    requires k < |NamedErrors1To12|
    ensures NamedErrors1To12[k].1.Code() == NamedCodeAt(k)
  {
  }

  lemma NamedErrors13To24Codes(k: nat)
    requires k < |NamedErrors13To24|
    ensures NamedErrors13To24[k].1.Code() == NamedCodeAt(k + 12)
  {
  }

  lemma NamedErrors25To36Codes(k: nat)
    requires k < |NamedErrors25To36|
    ensures NamedErrors25To36[k].1.Code() == NamedCodeAt(k + 24)
  {
  }

  lemma NamedErrors37ToUnknownCodes(k: nat)
    requires k < |NamedErrors37ToUnknown|
    ensures NamedErrors37ToUnknown[k].1.Code() == NamedCodeAt(k + 36)
  {
  }

  /** Entry `k` of the table carries code `NamedCodeAt(k)`. */
  lemma NamedCode(k: nat)
    requires k < |NamedErrors|
    ensures NamedErrors[k].1.Code() == NamedCodeAt(k)
  {
    if k < 12 {
      NamedErrors1To12Codes(k);
    } else if k < 24 {
      NamedErrors13To24Codes(k - 12);
    } else if k < 36 {
      NamedErrors25To36Codes(k - 24);
    } else {
      NamedErrors37ToUnknownCodes(k - 36);
    }
  }

  /** No two entries of the table carry the same code, so each arm of the
      generated `match` is the only one that can match its constant. */
  lemma NamedCodesDistinct()
    ensures forall i, j :: 0 <= i < j < |NamedErrors| ==> NamedErrors[i].1 != NamedErrors[j].1
  {
    forall i, j | 0 <= i < j < |NamedErrors|
      ensures NamedErrors[i].1 != NamedErrors[j].1
    {
      NamedCode(i);
      NamedCode(j);
    }
  }

  // ---------------------------------------------------------------------
  // From status codes to errors and back
  // ---------------------------------------------------------------------

  /** `Error::new`: no error for 0, otherwise an error carrying the code. */
  function New(code: u32): (r: Option<Error>)
    ensures r.None? <==> code == 0
    ensures r.Some? ==> r.value.Code() == code
  {
    if code == 0 then None else Some(Error(code))
  }

  /** `Error::result`: `Ok(())` for 0, otherwise `Err` of the error with
      that code. */
  function ResultOf(code: u32): (r: Result<Unit, Error>)
    ensures r.Ok? <==> code == 0
    ensures r.Err? ==> r.error.Code() == code
  {
    match New(code)
    case Some(e) => Err(e)
    case None => Ok(Unit)
  }

  /** Every error is what `Error::new` makes of its own code. */
  lemma NewOfCode(e: Error)
    ensures New(e.Code()) == Some(e)
  {
  }

  /** Every nonzero code survives `Error::new` followed by `Error::code`. */
  lemma CodeOfNew(code: u32)
    requires code != 0
    ensures New(code).Some? && New(code).value.Code() == code
  {
  }

  // ---------------------------------------------------------------------
  // Debug
  // ---------------------------------------------------------------------

  /** The name of the first constant in `table` equal to `e`, as the arms
      of the generated `match` are tried in order. */
  function NameOf(table: seq<(string, Error)>, e: Error): Option<string> {
    if table == [] then None
    else if table[0].1 == e then Some(table[0].0)
    else NameOf(table[1..], e)
  }

  /** Rust's `{}` for an unsigned integer: decimal digits, no leading zero. */
  function Decimal(n: nat): (s: string)
    ensures |s| >= 1
    ensures forall i :: 0 <= i < |s| ==> '0' <= s[i] <= '9'
    ensures s[0] == '0' ==> n == 0
    decreases n
  {
    if n < 10 then [DigitChar(n)] else Decimal(n / 10) + [DigitChar(n % 10)]
  }

  function DigitChar(d: nat): (c: char)
    requires d < 10
    ensures '0' <= c <= '9'
  {
    (d + '0' as int) as char
  }

  /** The number a string of decimal digits denotes. */
  function DecimalValue(s: string): nat
    requires forall i :: 0 <= i < |s| ==> '0' <= s[i] <= '9'
  {
    if s == [] then 0
    else 10 * DecimalValue(s[..|s| - 1]) + (s[|s| - 1] as int - '0' as int)
  }

  /** Reading back what `Decimal` prints gives the number. */
  lemma {:induction false} DecimalRoundTrip(n: nat)
    ensures DecimalValue(Decimal(n)) == n
    decreases n
  {
    if n >= 10 {
      DecimalRoundTrip(n / 10);
      var s := Decimal(n);
      assert s[..|s| - 1] == Decimal(n / 10);
    }
  }

  /** The `Debug` impl: the constant's name when the code is a named
      constant, the tuple form `Error(code)` otherwise. */
  function Debug(e: Error): string {
    match NameOf(NamedErrors, e)
    case Some(name) => name
    case None => "Error(" + Decimal(e.Code()) + ")"
  }

  /** The generated `match` finds the first entry equal to `e`. */
  lemma {:induction false} NameOfFirst(table: seq<(string, Error)>, e: Error, k: nat)
    requires k < |table| && table[k].1 == e
    requires forall j :: 0 <= j < k ==> table[j].1 != e
    ensures NameOf(table, e) == Some(table[k].0)
    decreases k
  {
    if k > 0 {
      NameOfFirst(table[1..], e, k - 1);
    }
  }

  /** The generated `match` falls through when no entry equals `e`. */
  lemma {:induction false} NameOfNone(table: seq<(string, Error)>, e: Error)
    requires forall j :: 0 <= j < |table| ==> table[j].1 != e
    ensures NameOf(table, e) == None
    decreases |table|
  {
    if table != [] {
      NameOfNone(table[1..], e);
    }
  }

  /** Debug names a named constant by its name. */
  lemma DebugNamed(e: Error, k: nat)
    requires k < |NamedErrors| && NamedErrors[k].1 == e
    requires forall j :: 0 <= j < k ==> NamedErrors[j].1 != e
    ensures Debug(e) == NamedErrors[k].0
  {
    NameOfFirst(NamedErrors, e, k);
  }

  /** Debug prints every named constant as its own name. */
  lemma DebugOfNamed(k: nat)
    requires k < |NamedErrors|
    ensures Debug(NamedErrors[k].1) == NamedErrors[k].0
  {
    NamedCodesDistinct();
    DebugNamed(NamedErrors[k].1, k);
  }

  /** Two constants from either end of the enum, and one past its middle. */
  lemma DebugNamedExamples()
    ensures Debug(InvalidParameter) == "InvalidParameter"
    ensures Debug(MultipleSubscribersNotSupported) == "MultipleSubscribersNotSupported"
    ensures Debug(Unknown) == "Unknown"
  {
    DebugOfNamed(0);
    DebugOfNamed(38);
    DebugOfNamed(46);
  }

  /** Debug prints any other code in the tuple form, and the digits read
      back as the code. */
  lemma DebugUnnamed(e: Error)
    requires forall j :: 0 <= j < |NamedErrors| ==> NamedErrors[j].1 != e
    ensures Debug(e) == "Error(" + Decimal(e.Code()) + ")"
    ensures DecimalValue(Debug(e)[6..|Debug(e)| - 1]) == e.Code()
  {
    NameOfNone(NamedErrors, e);
    var d := Debug(e);
    assert d[6..|d| - 1] == Decimal(e.Code());
    DecimalRoundTrip(e.Code());
  }

  // ---------------------------------------------------------------------
  // Messages and Display
  // ---------------------------------------------------------------------

  /** A string out-parameter of a CUPTI call, as `message` and
      `result_string` read it: `None` when the call's status is an error or
      the pointer it filled in is null, otherwise the C string's bytes
      (up to its nul). `text` stands for the pointer: `None` is null. */
  function ForeignString(status: u32, text: Option<seq<u8>>): (r: Option<seq<u8>>)
    ensures status != 0 ==> r.None?
    ensures text.None? ==> r.None?
    ensures status == 0 && text.Some? ==> r == text
  {
    if ResultOf(status).Err? then None
    else if text.None? then None
    else text
  }

  /** `Error::message`, given what `cuptiGetErrorMessage` returned. */
  function Message(status: u32, text: Option<seq<u8>>): Option<seq<u8>> {
    ForeignString(status, text)
  }

  /** `Error::result_string`, given what `cuptiGetResultString` returned. */
  function ResultString(status: u32, text: Option<seq<u8>>): Option<seq<u8>> {
    ForeignString(status, text)
  }

  /** ASCII text as bytes. */
  function AsciiBytes(s: string): (r: seq<u8>)
    requires forall i :: 0 <= i < |s| ==> s[i] < 128 as char
    ensures |r| == |s|
    ensures forall i :: 0 <= i < |s| ==> r[i] == s[i] as int && r[i] < 0x80
  {
    if s == [] then [] else [s[0] as int] + AsciiBytes(s[1..])
  }

  const FallbackPrefix: string := "CUPTI error code "

  /** The `Display` fallback text. */
  function Fallback(e: Error): (r: seq<u8>) {
    AsciiBytes(FallbackPrefix + Decimal(e.Code()))
  }

  /** The `Display` impl: the library's message when there is one and it is
      valid UTF-8 (`CStr::to_str` succeeds), otherwise
      "CUPTI error code {code}". `status` and `text` are what
      `cuptiGetErrorMessage` returned for `e`'s code. */
  function Display(e: Error, status: u32, text: Option<seq<u8>>): (r: seq<u8>)
    ensures status == 0 && text.Some? && Utf8.IsValid(text.value) ==> r == text.value
    ensures status != 0 || text.None? || !Utf8.IsValid(text.value) ==> r == Fallback(e)
  {
    match Message(status, text)
    case Some(bytes) => if Utf8.IsValid(bytes) then bytes else Fallback(e)
    case None => Fallback(e)
  }

  /** Whatever the library returns, `Display` writes valid UTF-8. */
  lemma DisplayIsValid(e: Error, status: u32, text: Option<seq<u8>>)
    ensures Utf8.IsValid(Display(e, status, text))
  {
    Utf8.AsciiIsValid(Fallback(e));
  }

  /** The fallback text is the fixed prefix followed by the code in
      decimal, and those digits read back as the code. */
  lemma FallbackCode(e: Error)
    ensures Fallback(e) == AsciiBytes(FallbackPrefix) + AsciiBytes(Decimal(e.Code()))
    ensures DecimalValue(Decimal(e.Code())) == e.Code()
  {
    assert forall i :: 0 <= i < |FallbackPrefix| ==> FallbackPrefix[i] < 128 as char;
    AsciiBytesAppend(FallbackPrefix, Decimal(e.Code()));
    DecimalRoundTrip(e.Code());
  }

  lemma AsciiBytesAppend(a: string, b: string)
    requires forall i :: 0 <= i < |a| ==> a[i] < 128 as char
    requires forall i :: 0 <= i < |b| ==> b[i] < 128 as char
    ensures AsciiBytes(a + b) == AsciiBytes(a) + AsciiBytes(b)
  {
    var l, r := AsciiBytes(a + b), AsciiBytes(a) + AsciiBytes(b);
    assert |l| == |r|;
    forall i | 0 <= i < |l| ensures l[i] == r[i] {
      if i < |a| { assert (a + b)[i] == a[i]; } else { assert (a + b)[i] == b[i - |a|]; }
    }
  }
}
