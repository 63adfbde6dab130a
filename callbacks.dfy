/** The pure and array logic of the callback-subscriber API: subscriber
    name handling in `Subscriber::new_v2`, its error mapping, the bool/int
    conversions of the enable calls, the dispatch of a raw callback to the
    handler of its domain, and the stream-attribute selector.

    Results that come from the CUPTI library (status codes, bytes it writes
    into buffers) are parameters. */
module Callbacks {
  import opened Common
  import Utf8
  import opened CuptiError

  // ---------------------------------------------------------------------
  // Truncating the subscriber name
  // ---------------------------------------------------------------------

  /** What `truncate_to_char_boundary` computes: the name itself when it
      fits, and the empty string otherwise, because the loop's range
      `len - 1..=0` counts upwards and is empty unless `len == 1`. */
  function TruncatedAsWritten(s: seq<u8>, len: nat): (r: seq<u8>)
    ensures r <= s && |r| <= len
    ensures |s| <= len ==> r == s
    ensures |s| > len ==> r == []
  {
    if |s| <= len then s else []
  }

  /** `Subscriber::truncate_to_char_boundary`, as written. `len - 1` would
      underflow for `len == 0`; the only caller passes a positive constant. */
  method TruncateToCharBoundary(s: seq<u8>, len: usize) returns (r: seq<u8>)
    requires |s| <= len || len >= 1
    ensures r == TruncatedAsWritten(s, len)
  {
    if |s| <= len {
      return s;
    }
    // `for i in len - 1..=0`: the range yields len - 1, len, ..., 0, which
    // is nothing at all unless len - 1 == 0.
    var i: int := len - 1;
    while i <= 0
      invariant len - 1 <= i
      decreases 1 - i
    {
      if Utf8.IsCharBoundary(s, i) {
        return s[..i];
      }
      i := i + 1;
    }
    return [];
  }

  /** The last character boundary of `s` at or before `i`. */
  function LastBoundary(s: seq<u8>, i: nat): (k: nat)
    ensures k <= i && Utf8.IsCharBoundary(s, k)
    ensures forall j :: k < j <= i ==> !Utf8.IsCharBoundary(s, j)
  {
    if Utf8.IsCharBoundary(s, i) then i else LastBoundary(s, i - 1)
  }

  /** The truncation the documentation promises: the longest prefix of at
      most `len` bytes that ends on a character boundary. */
  function Truncated(s: seq<u8>, len: nat): (r: seq<u8>)
    ensures r <= s
    ensures |s| <= len ==> r == s
    ensures |s| > len ==> |r| <= len && Utf8.IsCharBoundary(s, |r|)
    ensures |s| > len ==> forall j :: |r| < j <= len ==> !Utf8.IsCharBoundary(s, j)
  {
    if |s| <= len then s else s[..LastBoundary(s, len)]
  }

  /** `truncate_to_char_boundary` with the loop running downwards,
      `for i in (0..=len).rev()`. */
  method TruncateToCharBoundaryFixed(s: seq<u8>, len: usize) returns (r: seq<u8>)
    ensures |s| <= len ==> r == s
    ensures |s| > len ==> r <= s && |r| <= len && Utf8.IsCharBoundary(s, |r|)
    ensures |s| > len ==> forall j :: |r| < j <= len ==> !Utf8.IsCharBoundary(s, j)
    ensures r == Truncated(s, len)
  {
    if |s| <= len {
      return s;
    }
    var i: nat := len;
    while !Utf8.IsCharBoundary(s, i)
      invariant i <= len
      invariant forall j :: i < j <= len ==> !Utf8.IsCharBoundary(s, j)
      decreases i
    {
      i := i - 1;
    }
    assert LastBoundary(s, len) == i;
    return s[..i];
  }

  /** The truncated name is still valid UTF-8. */
  lemma TruncatedIsValid(s: seq<u8>, len: nat)
    requires Utf8.IsValid(s)
    ensures Utf8.IsValid(Truncated(s, len))
  {
    if |s| > len {
      Utf8.PrefixAtBoundaryIsValid(s, |Truncated(s, len)|);
    }
  }

  /** The difference: a three-byte ASCII name with room for two bytes is
      cut to "ab" by the documented truncation and to "" as written. */
  lemma TruncationCounterexample()
    ensures TruncatedAsWritten([0x61, 0x62, 0x63], 2) == []
    ensures Truncated([0x61, 0x62, 0x63], 2) == [0x61, 0x62]
  {
    assert Utf8.IsCharBoundary([0x61, 0x62, 0x63], 2);
  }

  /** As written, every over-long name loses all of its bytes, even where
      the documented truncation keeps `len` of them. */
  lemma AsWrittenDropsOverlongNames(s: seq<u8>, len: nat)
    requires |s| > len > 0 && !Utf8.IsContinuation(s[len])
    ensures TruncatedAsWritten(s, len) == []
    ensures |Truncated(s, len)| == len
  {
  }

  // ---------------------------------------------------------------------
  // C strings in fixed buffers
  // ---------------------------------------------------------------------

  /** `CStr::from_bytes_until_nul`: the bytes before the first nul, or an
      error (`None`) when there is no nul. */
  function FromBytesUntilNul(b: seq<u8>): (r: Option<seq<u8>>)
    ensures r.Some? <==> 0 in b
    ensures r.Some? ==> r.value < b && b[|r.value|] == 0 && 0 !in r.value
  {
    if b == [] then None
    else if b[0] == 0 then Some([])
    else match FromBytesUntilNul(b[1..])
      case None => None
      case Some(rest) => Some([b[0]] + rest)
  }

  /** The C string a nul-terminated copy of `t` denotes: `t` up to its first nul. */
  function BeforeNul(t: seq<u8>): (r: seq<u8>)
    ensures r <= t && 0 !in r
    ensures |r| < |t| ==> t[|r|] == 0
  {
    if t == [] || t[0] == 0 then [] else [t[0]] + BeforeNul(t[1..])
  }

  /** A byte string followed by at least one nul reads back as the
      C string it holds. */
  lemma {:induction false} UntilNulOfPadded(t: seq<u8>, pad: nat)
    requires pad > 0
    ensures FromBytesUntilNul(t + Repeat(0, pad)) == Some(BeforeNul(t))
    decreases |t|
  {
    var b := t + Repeat(0, pad);
    if t == [] {
      assert b[0] == 0;
    } else if t[0] != 0 {
      assert b[1..] == t[1..] + Repeat(0, pad);
      UntilNulOfPadded(t[1..], pad);
    }
  }

  /** A zero-filled buffer of `size` bytes with `t` copied over its start. */
  function NulPadded(t: seq<u8>, size: nat): (b: seq<u8>)
    requires |t| < size
    ensures |b| == size && b[..|t|] == t
    ensures forall j :: |t| <= j < size ==> b[j] == 0
    ensures FromBytesUntilNul(b) == Some(BeforeNul(t))
  {
    UntilNulOfPadded(t, size - |t|);
    assert (t + Repeat(0, size - |t|))[..|t|] == t;
    t + Repeat(0, size - |t|)
  }

  /** `new_v2`'s `name_bytes`: `[0u8; max_len + 1]`, with the truncated
      name copied over its start, so that the last byte is always a nul.
      `None` stands for the null pointer passed when no name is given. */
  method SubscriberNameBuffer(name: Option<seq<u8>>, maxLen: usize) returns (param: Option<seq<u8>>)
    ensures param.Some? <==> name.Some?
    ensures name.Some? ==> param.value == NulPadded(Truncated(name.value, maxLen), maxLen + 1)
    ensures name.Some? ==> param.value[maxLen] == 0
  {
    var nameBytes := new u8[maxLen + 1](_ => 0);
    if name.None? {
      return None;
    }
    var t := TruncateToCharBoundaryFixed(name.value, maxLen);
    // `name_bytes[..t.len()].copy_from_slice(t)`
    var i := 0;
    while i < |t|
      invariant 0 <= i <= |t|
      invariant forall j :: 0 <= j < i ==> nameBytes[j] == t[j]
      invariant forall j :: i <= j < nameBytes.Length ==> nameBytes[j] == 0
    {
      nameBytes[i] := t[i];
      i := i + 1;
    }
    ghost var padded := NulPadded(t, maxLen + 1);
    assert forall j :: 0 <= j < |t| ==> padded[j] == padded[..|t|][j];
    assert nameBytes[..] == padded;
    return Some(nameBytes[..]);
  }

  /** `new_v2`'s `old_name_bytes` after the call: `[0u8; min_len + 1]`,
      of which CUPTI may overwrite the first `oldSubscriberSize` (that is,
      `min_len`) bytes; `written` is what it wrote there. Its last byte
      stays a nul, so reading it as a C string cannot fail. */
  function OldNameBuffer(written: seq<u8>, minLen: nat): (b: seq<u8>)
    requires |written| <= minLen
    ensures |b| == minLen + 1 && b[minLen] == 0
    ensures FromBytesUntilNul(b) == Some(BeforeNul(written))
  {
    NulPadded(written, minLen + 1)
  }

  // ---------------------------------------------------------------------
  // Error mapping in new_v2
  // ---------------------------------------------------------------------

  /** An error returned by `Subscriber::new_v2`. */
  datatype SubscribeError = SubscribeError(error: Error, oldName: Option<seq<u8>>)

  /** The outcome of `new_v2` as written: `old_name` is
      `old_name.is_empty().then(...)`, which is `Some` only when the
      existing subscriber's name is EMPTY. `Ok(Unit)` stands for the new
      subscriber. */
  function NewV2ResultAsWritten(code: u32, written: seq<u8>, minLen: nat): (r: Result<Unit, SubscribeError>)
    requires |written| <= minLen
  {
    match ResultOf(code)
    case Ok(_) => Ok(Unit)
    case Err(error) =>
      if error == MultipleSubscribersNotSupported then
        var oldName := FromBytesUntilNul(OldNameBuffer(written, minLen)).value;
        Err(SubscribeError(error, if |oldName| == 0 then Some(oldName) else None))
      else
        Err(SubscribeError(error, None))
  }

  /** The outcome of `new_v2` as documented: the existing subscriber's name
      when CUPTI reported one. */
  function NewV2Result(code: u32, written: seq<u8>, minLen: nat): (r: Result<Unit, SubscribeError>)
    requires |written| <= minLen
    ensures r.Ok? <==> code == 0
    ensures r.Err? ==> r.error.error.Code() == code
    ensures r.Err? && r.error.oldName.Some? ==> r.error.error == MultipleSubscribersNotSupported
    ensures r.Err? && r.error.error == MultipleSubscribersNotSupported ==>
      (r.error.oldName.Some? <==> BeforeNul(written) != []) &&
      (r.error.oldName.Some? ==> r.error.oldName.value == BeforeNul(written))
  {
    match ResultOf(code)
    case Ok(_) => Ok(Unit)
    case Err(error) =>
      if error == MultipleSubscribersNotSupported then
        var oldName := FromBytesUntilNul(OldNameBuffer(written, minLen)).value;
        Err(SubscribeError(error, if |oldName| != 0 then Some(oldName) else None))
      else
        Err(SubscribeError(error, None))
  }

  /** As written, the error carries a name exactly when there is none. */
  lemma NewV2AsWrittenOldName(code: u32, written: seq<u8>, minLen: nat)
    requires |written| <= minLen
    ensures var r := NewV2ResultAsWritten(code, written, minLen);
      && (r.Ok? <==> code == 0)
      && (r.Err? ==> r.error.error.Code() == code)
      && (r.Err? && r.error.oldName.Some? ==> r.error.error == MultipleSubscribersNotSupported)
      && (r.Err? && r.error.error == MultipleSubscribersNotSupported ==>
           (r.error.oldName.Some? <==> BeforeNul(written) == []) &&
           (r.error.oldName.Some? ==> r.error.oldName.value == []))
  {
  }

  /** The difference: when "nsys" holds the subscription, the as-written
      error reports no name, the documented one reports "nsys". */
  lemma OldNameCounterexample()
    ensures NewV2ResultAsWritten(39, [0x6E, 0x73, 0x79, 0x73], 4) ==
      Err(SubscribeError(MultipleSubscribersNotSupported, None))
    ensures NewV2Result(39, [0x6E, 0x73, 0x79, 0x73], 4) ==
      Err(SubscribeError(MultipleSubscribersNotSupported, Some([0x6E, 0x73, 0x79, 0x73])))
  {
    var w: seq<u8> := [0x6E, 0x73, 0x79, 0x73];
    assert BeforeNul(w) == w by {
      assert w[1..][1..][1..] == w[3..];
      assert w[1..][1..] == w[2..];
      assert BeforeNul(w[3..]) == w[3..];
      assert BeforeNul(w[2..]) == w[2..];
      assert BeforeNul(w[1..]) == w[1..];
    }
    NewV2AsWrittenOldName(39, w, 4);
  }

  /** `From<SubscribeError> for Error`: the error code, whatever the name. */
  function IntoError(e: SubscribeError): Error {
    e.error
  }

  /** `new_v2`'s failure converts back to the error of the status code. */
  lemma NewV2IntoError(code: u32, written: seq<u8>, minLen: nat)
    requires |written| <= minLen && code != 0
    ensures NewV2Result(code, written, minLen).Err?
    ensures Some(IntoError(NewV2Result(code, written, minLen).error)) == New(code)
  {
  }

  // ---------------------------------------------------------------------
  // Enable flags and callback state
  // ---------------------------------------------------------------------

  /** `if enable { 1 } else { 0 }`, the flag sent by `enable_callback`,
      `enable_domain` and `enable_all_domains`. */
  function EnableFlag(enable: bool): (r: u32)
    ensures r <= 1
    ensures (r != 0) == enable
  {
    if enable then 1 else 0
  }

  /** `get_callback_state`, given the status and the `enabled` value CUPTI
      returned. */
  function GetCallbackState(status: u32, enabled: u32): (r: Result<bool, Error>)
    ensures r.Ok? <==> status == 0
    ensures r.Ok? ==> r.value == (enabled != 0)
    ensures r.Err? ==> r.error.Code() == status
  {
    match ResultOf(status)
    case Err(e) => Err(e)
    case Ok(_) => Ok(enabled != 0)
  }

  /** A state that was set with `enable` reads back as `enable`. */
  lemma EnableRoundTrip(enable: bool)
    ensures GetCallbackState(0, EnableFlag(enable)) == Ok(enable)
  {
  }

  // ---------------------------------------------------------------------
  // Callback dispatch
  // ---------------------------------------------------------------------

  // `CUpti_CallbackDomain` values, from CUPTI's `cupti_callbacks.h`.
  const DomainInvalid: u32 := 0
  const DomainDriverApi: u32 := 1
  const DomainRuntimeApi: u32 := 2
  const DomainResource: u32 := 3
  const DomainSynchronize: u32 := 4
  const DomainNvtx: u32 := 5
  const DomainState: u32 := 6

  /** The `SubscriberCallbacks` method a callback is handed to, with the
      callback ID it receives. */
  datatype Handler =
    | DriverApi(cbid: u32)
    | RuntimeApi(cbid: u32)
    | Resource(cbid: u32)
    | Synchronize(cbid: u32)
    | Nvtx(cbid: u32)
    | State(cbid: u32)

  /** `RawSubscriberCallback::call`: one handler per known domain, none for
      the invalid domain or a domain this library does not know. */
  function Call(domain: u32, cbid: u32): (r: Option<Handler>)
    ensures r.None? <==> domain == DomainInvalid || domain > DomainState
  {
    if domain == DomainDriverApi then Some(DriverApi(cbid))
    else if domain == DomainRuntimeApi then Some(RuntimeApi(cbid))
    else if domain == DomainResource then Some(Resource(cbid))
    else if domain == DomainSynchronize then Some(Synchronize(cbid))
    else if domain == DomainNvtx then Some(Nvtx(cbid))
    else if domain == DomainState then Some(State(cbid))
    else None
  }

  /** The domain a handler serves. */
  function HandlerDomain(h: Handler): u32 {
    match h
    case DriverApi(_) => DomainDriverApi
    case RuntimeApi(_) => DomainRuntimeApi
    case Resource(_) => DomainResource
    case Synchronize(_) => DomainSynchronize
    case Nvtx(_) => DomainNvtx
    case State(_) => DomainState
  }

  /** Dispatch hands the callback to the handler of its own domain, with
      its callback ID unchanged, and every handler is reachable. */
  lemma CallRoundTrip(domain: u32, cbid: u32, h: Handler)
    ensures Call(domain, cbid) == Some(h) ==> HandlerDomain(h) == domain && h.cbid == cbid
    ensures Call(HandlerDomain(h), h.cbid) == Some(h)
  {
  }

  // ---------------------------------------------------------------------
  // Stream attribute values
  // ---------------------------------------------------------------------

  // `CUstreamAttrID` values, from CUDA's `cuda.h` (CU_LAUNCH_ATTRIBUTE_*).
  const AttrAccessPolicyWindow: u32 := 1
  const AttrSynchronizationPolicy: u32 := 3
  const AttrPriority: u32 := 8
  const AttrMemSyncDomainMap: u32 := 9
  const AttrMemSyncDomain: u32 := 10

  /** `CUaccessPolicyWindow`; `hitRatio` is an `f32`, kept as its bits. */
  datatype AccessPolicyWindow =
    AccessPolicyWindow(basePtr: nat, numBytes: nat, hitRatioBits: u32, hitProp: u32, missProp: u32)

  /** `CUlaunchMemSyncDomainMap` */
  datatype MemSyncDomainMap = MemSyncDomainMap(defaultDomain: u8, remoteDomain: u8)

  /** The union `CUstreamAttrValue`, seen through each of its fields. */
  datatype RawAttrValue = RawAttrValue(
    accessPolicyWindow: AccessPolicyWindow,
    syncPolicy: u32,
    priority: int,
    memSyncDomainMap: MemSyncDomainMap,
    memSyncDomain: u32)

  /** `StreamAttributeValue` */
  datatype StreamAttributeValue =
    | AccessPolicyWindowValue(window: AccessPolicyWindow)
    | SynchronizationPolicyValue(policy: u32)
    | PriorityValue(priority: int)
    | MemSyncDomainMapValue(domainMap: MemSyncDomainMap)
    | MemSyncDomainValue(domain: u32)
    | UnknownValue(raw: RawAttrValue)

  /** `StreamAttrData::value`: the union field that `attr` selects. */
  function Value(attr: u32, raw: RawAttrValue): (r: StreamAttributeValue)
    ensures r.UnknownValue? <==>
      attr !in {AttrAccessPolicyWindow, AttrSynchronizationPolicy, AttrPriority,
                AttrMemSyncDomainMap, AttrMemSyncDomain}
    ensures r.UnknownValue? ==> r.raw == raw
  {
    if attr == AttrAccessPolicyWindow then AccessPolicyWindowValue(raw.accessPolicyWindow)
    else if attr == AttrSynchronizationPolicy then SynchronizationPolicyValue(raw.syncPolicy)
    else if attr == AttrPriority then PriorityValue(raw.priority)
    else if attr == AttrMemSyncDomainMap then MemSyncDomainMapValue(raw.memSyncDomainMap)
    else if attr == AttrMemSyncDomain then MemSyncDomainValue(raw.memSyncDomain)
    else UnknownValue(raw)
  }

  /** The attribute ID a recognised value belongs to. */
  function ValueAttr(v: StreamAttributeValue): Option<u32> {
    match v
    case AccessPolicyWindowValue(_) => Some(AttrAccessPolicyWindow)
    case SynchronizationPolicyValue(_) => Some(AttrSynchronizationPolicy)
    case PriorityValue(_) => Some(AttrPriority)
    case MemSyncDomainMapValue(_) => Some(AttrMemSyncDomainMap)
    case MemSyncDomainValue(_) => Some(AttrMemSyncDomain)
    case UnknownValue(_) => None
  }

  /** A recognised value is the field of the attribute it came from. */
  lemma ValueSelectsOwnField(attr: u32, raw: RawAttrValue)
    ensures var v := Value(attr, raw);
      && (v.UnknownValue? || ValueAttr(v) == Some(attr))
      && (v.AccessPolicyWindowValue? ==> v.window == raw.accessPolicyWindow)
      && (v.SynchronizationPolicyValue? ==> v.policy == raw.syncPolicy)
      && (v.PriorityValue? ==> v.priority == raw.priority)
      && (v.MemSyncDomainMapValue? ==> v.domainMap == raw.memSyncDomainMap)
      && (v.MemSyncDomainValue? ==> v.domain == raw.memSyncDomain)
  {
  }
}
