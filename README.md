# cupti-rs: verified model of the non-FFI logic

cupti-rs wraps NVIDIA's CUPTI profiling library. Almost all of it forwards
parameter structs to the closed-source library. This project models the
parts whose behaviour can be stated without that library, and proves
properties of them:

- **Binding regeneration policy** (`xtask`), in modules `Regex` and `Regenerate`.
  - bindgen keeps a header symbol when the whole name matches the allow
    pattern `[Cc][Uu][Pp][Tt][Ii].*`.
  - It then drops functions whose name matches the block pattern
    `cu([^p]|p[^t]|pt[^i]).*`.
  - The `ParseCallbacks` hook answers which derivable traits a blocklisted
    type implements.
  - `Regex.Lang` gives the patterns their anchored, whole-name meaning. In
    that meaning `.` excludes a line feed and a negated class does not.
  - Each pattern is proved equal to a closed-form predicate on the name.
- **Link directives of the `cupti-sys` build script**, in module `BuildScript`.
  - The script is a loop over `CUDA_HOME`, `CUDA_PATH` and `CUDA_ROOT` that
    appends cargo directive lines, followed by fixed lines.
  - The method is proved equal to a specification function. Its order,
    counts and membership are proved as lemmas.
- **Status codes and errors** (`cupti/src/error.rs`), in module `CuptiError`.
  - Covers `Error::new`, `result` and `code`, the generated `Debug` impl,
    `message`/`result_string` and the `Display` fallback.
  - An `Error` holds a non-zero `u32`, a subset type standing for
    `NonZeroU32`. So every named constant, such as `InvalidParameter` or
    `Unknown`, carries a proof that its code is non-zero. In the source, the
    const `unwrap` gives that guarantee.
  - Well-formed UTF-8 (section 4 of RFC 3629) is in module `Utf8`.
- **Subscriber helpers** (`cupti/src/callbacks.rs`), in module `Callbacks`.
  - Name truncation to a character boundary.
  - The zero-filled name buffers of `Subscriber::new_v2` and its error
    mapping.
  - The bool/int flags of the enable calls and `get_callback_state`.
  - Dispatch of a raw callback to the handler of its domain.
  - The stream-attribute union selector.

Values that come from outside are parameters:
- Environment variables are a map from name to unset, not Unicode, or set
  to a value.
- Status codes and strings returned by CUPTI.
- The bytes CUPTI writes into the old-subscriber-name buffer.
- The header constants `CUPTI_SUBSCRIBER_NAME_MAX_LEN` and
  `CUPTI_OLD_SUBSCRIBER_NAME_MIN_LEN`.

Numeric constants that the source takes from `cupti_sys` are written out as
CUPTI's and CUDA's headers define them:
- The error codes: 1 to 46, and 999 for `Unknown`.
- The callback domains: 0 to 6.
- The stream attribute IDs: 1, 3, 8, 9 and 10.

## Model

| member | source | states |
|---|---|---|
| Regenerate.AllowlistedIffPattern | xtask/src/regenerate.rs:21 | a name matches `[Cc][Uu][Pp][Tt][Ii].*` as a whole iff its first five characters are "cupti" up to ASCII case and the rest contains no line feed |
| Regenerate.CaseClassIff | xtask/src/regenerate.rs:21 | each class `[Xx]` of the allow pattern admits exactly the characters equal to the corresponding letter of "cupti" up to ASCII case |
| Regenerate.BlockedIffPattern | xtask/src/regenerate.rs:28 | a name matches `cu([^p]\|p[^t]\|pt[^i]).*` as a whole iff it agrees with "cupti" on a common prefix of 2 to 4 characters, has a character after it, and has no line feed after that character |
| Regenerate.BlockTailIffPattern | xtask/src/regenerate.rs:28 | the part after "cu" matches `([^p]\|p[^t]\|pt[^i]).*` iff it has a first deviation from "pti" within three characters and no line feed after it |
| Regenerate.BlockedIffCuBlockTail | xtask/src/regenerate.rs:28 | a name is blocked iff it starts with "cu" and the rest is a block tail |
| Regenerate.BlockedFunctionPlain | xtask/src/regenerate.rs:28 | for names without a line feed: blocked iff it starts with "cu", does not start with "cupti", and is not "cu", "cup" or "cupt" |
| Regenerate.CommonPrefixLen | xtask/src/regenerate.rs:28 | the result is the length of the longest common prefix: both agree before it and differ at it |
| Regenerate.AllowedCuFunctionEmittedIff | xtask/src/regenerate.rs:21-28 | an allowlisted function whose name starts with lower-case "cu" is emitted iff it starts with exactly "cupti" |
| Regenerate.NonFunctionEmittedIffAllowlisted | xtask/src/regenerate.rs:21-28 | types and variables are emitted iff allowlisted; the block pattern does not apply to them |
| Regenerate.Bindings | xtask/src/regenerate.rs:20-34 | a declaration is in the generated bindings iff it is in the header and emitted; no declaration is added |
| Regenerate.BindingsAppend | xtask/src/regenerate.rs:20-34 | the bindings of two consecutive parts of a header are those of the first part followed by those of the second, so every header keeps its order |
| Regenerate.BindingsIdempotent | xtask/src/regenerate.rs:20-34 | generating bindings again from generated bindings changes nothing |
| Regenerate.BindingsSkipsMiddle | xtask/src/regenerate.rs:20-34 | of three declarations where only the middle one is not emitted, the first and the third are kept, in that order |
| Regenerate.BlocklistedTypeImplementsTrait | xtask/src/regenerate.rs:52-69 | Copy and Debug are always implemented; Default is not implemented iff the name ends in "_st" and implemented otherwise; Hash and PartialEq/PartialOrd get no answer; never "manually" |
| Regenerate.AllowExamples | xtask/src/regenerate.rs:21 | "CUptiGetVersion" and "cupti_foo" are allowlisted |
| Regenerate.NotAllowedExamples | xtask/src/regenerate.rs:21 | "curandGenerate" and "cupt" are not allowlisted |
| Regenerate.BlockExamples | xtask/src/regenerate.rs:28 | "cuInit" and "cuMemAlloc" are blocked |
| Regenerate.NotBlockedExamples | xtask/src/regenerate.rs:28 | "cuptiActivityEnable" is not blocked |
| Regenerate.ShortPrefixesNotBlocked | xtask/src/regenerate.rs:28 | "cu", "cup" and "cupt" are not blocked |
| Regenerate.MixedCaseExample | xtask/src/regenerate.rs:21-28 | "cuPTI_x" is allowlisted and blocked: kept as a type, dropped as a function |
| Regenerate.ActivityEnableEmitted | xtask/src/regenerate.rs:21-28 | the function "cuptiActivityEnable" is emitted |
| Regenerate.GetVersionEmitted | xtask/src/regenerate.rs:21-28 | the function "cuptiGetVersion" is emitted |
| Regenerate.InitNotEmitted | xtask/src/regenerate.rs:21-28 | the function "cuInit" is not emitted |
| Regenerate.HeaderExample | xtask/src/regenerate.rs:20-34 | from the functions cuptiActivityEnable, cuInit and cuptiGetVersion, the bindings keep the first and the last |
| Regex.AnyStringLang | xtask/src/regenerate.rs:21 | `.*` matches exactly the strings without a line feed |
| Regex.WordLang | xtask/src/regenerate.rs:21 | a run of single-character classes followed by a tail pattern consumes one character per class, then the tail |
| Regex.ConcatAtomLang | xtask/src/regenerate.rs:28 | a single-character class in front of a pattern consumes exactly the first character |
| Regex.ConcatAltLang | xtask/src/regenerate.rs:28 | `(a\|b)r` matches exactly what `ar` or `br` matches |
| Regex.ConcatAssocLang | xtask/src/regenerate.rs:28 | `(ab)r` and `a(br)` match the same strings |
| BuildScript.AddCudaLibPaths | cupti-sys/build.rs:16-31 | the loop emits the three search lines of each set variable, in variable order, then the three `/usr/local/cuda` lines |
| BuildScript.RunBuildScript | cupti-sys/build.rs:3-14 | the script emits the search lines, then the link-lib line, then the three rerun lines |
| BuildScript.SetRootsStep | cupti-sys/build.rs:18-23 | one more loop iteration appends the search lines of the variable's value exactly when `env::var` returns `Ok` |
| BuildScript.SearchLinesAt | cupti-sys/build.rs:20-22 | the j-th root's lines sit at positions 3j, 3j+1 and 3j+2, as "{v}/lib64", "{v}/lib", "{v}/lib/x86_64-linux-gnu" |
| BuildScript.SearchLinesAreSearches | cupti-sys/build.rs:20-22 | every line emitted for a root is a `rustc-link-search=native=` directive |
| BuildScript.SetRootsPrefix | cupti-sys/build.rs:18 | the roots of the first i variables are a prefix of the roots of all of them |
| BuildScript.SearchLinesPrefix | cupti-sys/build.rs:18-23 | the lines of the first p roots are the first 3p search lines |
| BuildScript.SetRootsCount | cupti-sys/build.rs:18-19 | the number of roots is the number of set variables |
| BuildScript.SetVarLines | cupti-sys/build.rs:18-23 | a set variable's three lines sit at 3p, where p is the number of set variables before it |
| BuildScript.OnlySetValuesMatter | cupti-sys/build.rs:19 | unset and non-Unicode variables contribute nothing: the roots depend only on the set values |
| BuildScript.OnlySetValuesMatterForDirectives | cupti-sys/build.rs:19 | two environments with the same set values produce the same directives |
| BuildScript.DirectivesAreSingleLines | cupti-sys/build.rs:16-30 | every printed directive is one line exactly when no set variable's value holds a line feed |
| BuildScript.SingleLineValues | cupti-sys/build.rs:16-30 | with no line feed in any set value, no directive holds one |
| BuildScript.LineFeedInValue | cupti-sys/build.rs:19-20 | a line feed in a set value reaches the first search line printed for that variable |
| BuildScript.DirectivesOrder | cupti-sys/build.rs:5-30 | there are 3n+7 lines for n set variables: the default root's three lines at 3n, the link-lib line at 3n+3, and the three rerun lines last |
| BuildScript.DefaultRootLines | cupti-sys/build.rs:27-30 | the default lines are exactly `/usr/local/cuda/lib64`, `/usr/local/cuda/lib`, `/usr/local/cuda/lib/x86_64-linux-gnu` |
| BuildScript.SearchLinesComeFirst | cupti-sys/build.rs:5-30 | a line is a search directive iff it comes before position 3n+3, so every search line comes before the link-lib and rerun lines |
| BuildScript.LinkLibOnce | cupti-sys/build.rs:8 | the link-lib line occurs exactly once, at 3n+3 |
| CuptiError.New | cupti/src/error.rs:213-218 | no error iff the code is 0, otherwise an error carrying that code |
| CuptiError.ResultOf | cupti/src/error.rs:221-226 | `Ok` iff the code is 0, otherwise `Err` of an error whose code is the code |
| CuptiError.NewOfCode | cupti/src/error.rs:213-231 | every error is what `Error::new` makes of its own code |
| CuptiError.CodeOfNew | cupti/src/error.rs:213-231 | every non-zero code survives `new` followed by `code` |
| CuptiError.Decimal | cupti/src/error.rs:33 | a code prints as a non-empty string of decimal digits with no leading zero, except for 0 itself |
| CuptiError.DecimalRoundTrip | cupti/src/error.rs:33 | the printed digits read back as the code |
| CuptiError.NameOfFirst | cupti/src/error.rs:31-32 | the generated `match` names the first constant equal to the error |
| CuptiError.NameOfNone | cupti/src/error.rs:31-33 | the `match` falls through to the fallback arm when no constant is equal |
| CuptiError.NamedCode | cupti/src/error.rs:40-209 | the constants carry the codes 1 to 46 in declaration order, then 999 for `Unknown` |
| CuptiError.NamedCodesDistinct | cupti/src/error.rs:40-209 | no two constants carry the same code |
| CuptiError.DebugNamed | cupti/src/error.rs:29-36 | `Debug` of an error is the name of the first constant equal to it |
| CuptiError.DebugOfNamed | cupti/src/error.rs:29-36 | `Debug` of every named constant is that constant's own name |
| CuptiError.DebugNamedExamples | cupti/src/error.rs:29-36 | `InvalidParameter`, `MultipleSubscribersNotSupported` and `Unknown` print as their names |
| CuptiError.DebugUnnamed | cupti/src/error.rs:29-36 | `Debug` of any other error is `Error(<code>)`, whose digits read back as the code |
| CuptiError.ForeignString | cupti/src/error.rs:236-268 | `message` and `result_string` are `None` when the call fails or the pointer is null, otherwise the returned string |
| CuptiError.Display | cupti/src/error.rs:271-278 | `Display` writes the library's message when there is one and it is valid UTF-8, and "CUPTI error code N" otherwise |
| CuptiError.DisplayIsValid | cupti/src/error.rs:271-278 | whatever the library returns, `Display` writes valid UTF-8 |
| CuptiError.FallbackCode | cupti/src/error.rs:275 | the fallback is the prefix "CUPTI error code " followed by the code in decimal, which reads back as the code |
| CuptiError.AsciiBytes | cupti/src/error.rs:275 | ASCII text becomes the same number of bytes, each below 0x80 |
| CuptiError.AsciiBytesAppend | cupti/src/error.rs:275 | converting a concatenation of ASCII text converts each part |
| Utf8.PrefixAtBoundaryIsValid | cupti/src/callbacks.rs:892-904 | cutting valid UTF-8 at a character boundary leaves valid UTF-8 |
| Utf8.AsciiIsValid | cupti/src/error.rs:275 | bytes below 0x80 are valid UTF-8 |
| Utf8.FirstCharLen | cupti/src/callbacks.rs:898 | the first encoded character spans at most four bytes, and at most the length of the input |
| Callbacks.TruncatedAsWritten | cupti/src/callbacks.rs:892-904 | as written, a name that fits is returned unchanged and any longer name becomes empty; the result is a prefix of at most `len` bytes |
| Callbacks.TruncateToCharBoundary | cupti/src/callbacks.rs:892-904 | the loop over `len - 1..=0` computes exactly that |
| Callbacks.AsWrittenDropsOverlongNames | cupti/src/callbacks.rs:892-904 | as written, an over-long name becomes empty even when its first `len` bytes end on a character boundary |
| Callbacks.LastBoundary | cupti/src/callbacks.rs:898 | the last character boundary at or before an index |
| Callbacks.Truncated | cupti/src/callbacks.rs:892-904 | the documented truncation: the name when it fits, otherwise the longest prefix of at most `len` bytes that ends on a character boundary |
| Callbacks.TruncateToCharBoundaryFixed | cupti/src/callbacks.rs:892-904 | a downward loop returns that longest boundary prefix: no boundary lies between its end and `len` |
| Callbacks.TruncatedIsValid | cupti/src/callbacks.rs:892-904 | truncating a valid UTF-8 name leaves valid UTF-8 |
| Callbacks.FromBytesUntilNul | cupti/src/callbacks.rs:748 | a nul in the buffer gives the bytes before the first nul; no nul gives an error |
| Callbacks.BeforeNul | cupti/src/callbacks.rs:717 | the C string that a nul-terminated copy of a byte string denotes is its part before the first nul |
| Callbacks.UntilNulOfPadded | cupti/src/callbacks.rs:711-718 | bytes followed by at least one nul read back as the C string they hold |
| Callbacks.NulPadded | cupti/src/callbacks.rs:711-712 | a zeroed buffer with a shorter byte string copied over its start holds that string, zeros after it, and reads back as its C string |
| Callbacks.SubscriberNameBuffer | cupti/src/callbacks.rs:711-721 | no name passes a null pointer; otherwise the buffer of `max_len + 1` bytes holds the truncated name followed only by zeros, so its last byte is 0 |
| Callbacks.OldNameBuffer | cupti/src/callbacks.rs:712-748 | whatever CUPTI writes into the first `min_len` bytes, the final byte stays 0, so `from_bytes_until_nul(..).unwrap()` cannot fail |
| Callbacks.NewV2AsWrittenOldName | cupti/src/callbacks.rs:741-758 | as written: `Ok` iff code 0; an error carries its code; only MultipleSubscribersNotSupported can carry a name, and it carries one iff the reported name is EMPTY |
| Callbacks.NewV2Result | cupti/src/callbacks.rs:741-758 | corrected: the same mapping, but the name is carried iff CUPTI reported a non-empty one, and it is that name |
| Callbacks.NewV2IntoError | cupti/src/callbacks.rs:929-933 | converting a `new_v2` failure into an `Error` gives back the error of the status code |
| Callbacks.EnableFlag | cupti/src/callbacks.rs:808 | the flag sent is 1 for true and 0 for false (the same conversion is at lines 828 and 847) |
| Callbacks.GetCallbackState | cupti/src/callbacks.rs:777-786 | `Ok` iff the status is 0, with value true iff the reported state is non-zero; otherwise the status's error |
| Callbacks.EnableRoundTrip | cupti/src/callbacks.rs:777-812 | a state set with `enable` reads back as `enable` |
| Callbacks.Call | cupti/src/callbacks.rs:965-980 | exactly one handler for each of the six known domains; none for the invalid domain or an unknown one |
| Callbacks.CallRoundTrip | cupti/src/callbacks.rs:965-980 | dispatch picks the handler of the callback's own domain with its ID unchanged, and every handler is reachable |
| Callbacks.Value | cupti/src/callbacks.rs:537-559 | `Unknown` iff the attribute ID is none of the five recognised ones, carrying the raw union |
| Callbacks.ValueSelectsOwnField | cupti/src/callbacks.rs:542-555 | a recognised value is the union field of its own attribute ID |
| Callbacks.TruncationCounterexample | cupti/src/callbacks.rs:897 | "abc" with room for two bytes: as written gives "", the documented truncation gives "ab" |
| Callbacks.OldNameCounterexample | cupti/src/callbacks.rs:752 | with "nsys" holding the subscription: as written the error names nobody, corrected it names "nsys" |

## Left out

- Everything that crosses into CUPTI or CUDA is a parameter, not modelled code:
  - the foreign calls (`cuptiSubscribe_v2`, `cuptiGetErrorMessage`, `cuptiGetResultString`, the enable calls);
  - the subscriber handle and its lock;
  - the `callback` trampoline and the pointer casts in `call`.
- The handler payloads in `call` are left out. Their data structs are reinterpretations of raw pointers. The model keeps only which handler is chosen and the callback ID.
- The remaining steps of `Regenerate::run` are not modelled:
  - running clang and bindgen;
  - the syn/prettyplease reformatting;
  - the file I/O.
- bindgen also pulls in types that allowlisted items use, such as `CUcontext`. The model covers only the name policy, not this transitive closure.
- `cupti-sys/build/main.rs` is not part of this model. It is a driver over a `cuda_sdk` module that is not available. The model follows `cupti-sys/build.rs`, whose directives are `cargo:`-prefixed lines for `<root>/lib64`, `<root>/lib` and `<root>/lib/x86_64-linux-gnu`. Descriptions of the build step that use a `targets/<arch>-<os>/lib` layout or a `dylib=cupti` link line do not match `build.rs`. Where they differ, the model follows the code.
- `println!` to standard output is modelled as appending to an output sequence.
- BuildScript.DirectivesOrder, BuildScript.SearchLinesComeFirst and BuildScript.LinkLibOnce count `println!` calls, not the lines cargo reads. A CUDA_* value holding a line feed makes one call print several lines. `DirectivesAreSingleLines` says exactly when the two counts agree. The split lines themselves are not modelled.
- The numeric values of the `cupti_sys` constants are not visible in this repository. They are written out from CUPTI's and CUDA's headers:
  - error codes;
  - callback domains;
  - stream attribute IDs.
- `CUPTI_SUBSCRIBER_NAME_MAX_LEN` and `CUPTI_OLD_SUBSCRIBER_NAME_MIN_LEN` are parameters.
- CUPTI_SUBSCRIBER_NAME_MAX_LEN has to fit an array length. The 64-bit limit on array sizes is not modelled.
- `Debug`'s alternate form (`{:#?}`) is not modelled; it prints the tuple on several lines.
- `Display` of `SubscribeError` (callbacks.rs:935-939) delegates to `Error`'s `Display`, which is modelled. `source` is not modelled.
- Union reads and the float field:
  - `StreamAttrData::value` reads one field of a C union. The model gives each field its own value rather than reinterpreting shared bytes.
  - The `f32` hit ratio is kept as its bits.
- The table `NamedErrors` is written as four consecutive groups. This only keeps each lookup short; the table is the 47 constants in declaration order.
- CuptiError.Message and CuptiError.ResultString carry no contract of their own. Both are `ForeignString` of what the library returned, and that function's contract states the behaviour.
- Callbacks.TruncateToCharBoundary: requires `len >= 1` when the name does not fit. `len - 1` underflows at 0, which panics in a debug build and wraps in a release build. The only caller passes a positive header constant.
- Callbacks.SubscriberNameBuffer: the buffer is filled with the corrected truncation, per the finding below.
- Subscriber names and old names are modelled as byte strings. A Rust `&str` is valid UTF-8 by construction; `TruncatedIsValid` shows that the corrected truncation keeps it so.

## Findings

| source | as written | input that shows it | evidently intended | confidence | as-written member | corrected member |
|---|---|---|---|---|---|---|
| cupti/src/callbacks.rs:897 | `for i in len - 1..=0` is an ascending range. It is empty when `len > 1` and yields only 0 when `len == 1`, so any name longer than `len` becomes "". | name "abc", `len` 2: returns "" | a descending search (`(0..=len).rev()`) that keeps the longest prefix of at most `len` bytes ending on a character boundary ("longer names will be truncated", line 683) | not executed | Callbacks.TruncateToCharBoundary, Callbacks.TruncationCounterexample | Callbacks.TruncateToCharBoundaryFixed |
| cupti/src/callbacks.rs:752 | `old_name.is_empty().then(...)` keeps the name only when it is empty | status 39 (`MultipleSubscribersNotSupported`) with "nsys" reported as the existing subscriber: `old_name` is `None` | `(!old_name.is_empty()).then(...)`: carry the existing subscriber's name when there is one (doc at lines 701-705) | not executed | Callbacks.NewV2AsWrittenOldName, Callbacks.OldNameCounterexample | Callbacks.NewV2Result |
