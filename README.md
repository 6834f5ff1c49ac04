# csc: call-site capture, modelled in Dafny

`callSiteCapture(frameIdx = 0, skipFileNameAt = 0)` takes a snapshot of
the current call stack and returns a fixed-shape record. The record holds a
`callerInfo` line of the form `<name> (<file>:<line>:<column>)` for one
target frame, that frame's `functionName`, and `stackFrames.frame`, which
has one descriptor per frame from the target outwards. Each descriptor has
a name, a file, a line and a column. When no frame exists at the target
index, the record is the fixed sentinel
`{callerInfo: "unknown (unknown:0:0)", functionName: "unknown", stackFrames: {frame: []}}`.

The model has three modules:

- `JsSemantics` (`js_semantics.dfy`) covers the JavaScript operations the
  function relies on. These are `??` on `null`/`undefined`, indexing an
  array with any integer, `slice(start)`, `substring(start)` with its
  clamping, `toString()` on a non-negative integer (with its inverse
  `DecimalValue`) and `${x}` for a possibly absent number.
- `Assembly` (`assembly.dfy`) is the pure part of `callSiteCapture`. Given
  the snapshot, it selects the target frame, applies the per-field
  fallbacks and builds `callerInfo` and the descriptor list. Call sites
  are values of an arbitrary type `F`. The source-map resolver
  (`wrapCallSite` plus the four getters) is a total function
  `resolve: F -> ResolvedFrame` whose four fields may each be a value,
  `null` or `undefined`. `ParseCallerInfo` reads a `callerInfo` line back
  from the right. It is the partner that the format lemmas are stated
  against.
- `StackSnapshot` (`stack_snapshot.dfy`) models the imperative part.
  `ErrorGlobal` is the global `Error` reduced to its `prepareStackTrace`
  field. `Callsites` saves the hook, installs the snapshot closure, builds
  a stack and restores the hook. `CallSiteCapture` composes the snapshot
  with `Assembly.Capture`. The runtime's structured frame list is an input
  `raw`, in which `raw[0]` is `callsites`, `raw[1]` is `callSiteCapture`
  and `raw[2]` is its caller.

## Model

| member | source | states |
|---|---|---|
| `JsSemantics.Coalesce` | src/index.ts:38-41 | `x ?? d` yields the value whenever one is present, including an empty string or 0; only `null` and `undefined` give the fallback |
| `JsSemantics.Lookup` | src/index.ts:24 | indexing gives a frame exactly when `0 <= i < |s|`; a negative index or one at or past the length gives `undefined` and never fails |
| `JsSemantics.Slice` | src/index.ts:47 | `slice(start)` is a suffix of the array; for `start >= 0` its length is `|s| - min(start, |s|)`, and for a negative start it is the last `min(-start, |s|)` elements |
| `JsSemantics.Substring` | src/index.ts:40 | `substring(skip)` is the suffix of length `|s| - clamp(skip, 0, |s|)`, so a negative or oversized skip never fails |
| `JsSemantics.SubstringMonotone` | src/index.ts:40 | raising `skip` never lengthens the result, and the shorter result is a suffix of the longer one |
| `JsSemantics.DecimalString` | src/index.ts:52-53 | `n.toString()` is a non-empty string of decimal digits with no leading zero unless `n` is 0 |
| `JsSemantics.DecimalRoundTrip` | src/index.ts:52-53 | reading back the digits of `n.toString()` gives `n` |
| `JsSemantics.DecimalOfIff` | src/index.ts:52-53 | a string is the canonical decimal text of `n` (digits, no leading zero unless 0, denoting `n`) exactly when it is `n.toString()`, so "07" is never the text of 7 |
| `JsSemantics.TemplateText` | src/index.ts:44 | `${column}` is the canonical decimal text of a present column, and `"null"` or `"undefined"` for an absent one; it has no fallback |
| `JsSemantics.OptionalToString` | src/index.ts:52-53 | `x?.toString()` is defined exactly when the number is present, and is then the canonical decimal text of that number |
| `Assembly.Describe` | src/index.ts:48-54 | an absent name or file becomes `"unknown"` and a present one (even `""`) passes through; line and column are defined exactly when resolved, as the canonical decimal text of the resolved number (no zero padding), and are never defaulted to `"0"` |
| `Assembly.DescribeAll` | src/index.ts:47-55 | the mapped list has one descriptor per call site, in the same order, each built from that call site alone |
| `Assembly.CallerInfo` | src/index.ts:44 | the `callerInfo` template opens with the name and " (" and closes with ")"; its full shape is fixed by `CallerInfoParses` and `ParseCallerInfoRejoin` |
| `Assembly.ParseCallerInfoRejoin` | src/index.ts:44 | any line the right-to-left reader accepts as (head, line, column) is exactly `head:line:column)`, so the reading in `CallerInfoParses` determines the line |
| `Assembly.CallerInfoParses` | src/index.ts:44 | a `callerInfo` line read back from the right yields `name + " (" + file`, the line text and the column text, whatever colons or parentheses the name and the file contain |
| `Assembly.UnknownIsCallerInfo` | src/index.ts:28-34 | the sentinel record `Unknown` has a line of the same shape, with name and file `"unknown"` and line and column 0 |
| `Assembly.Capture` | src/index.ts:20-58 | the frame list is empty exactly when `frameIdx + 1` is out of range, and in that case the result is the sentinel |
| `Assembly.CaptureUnknownIff` | src/index.ts:23-35 | the result equals the sentinel if and only if `frameIdx + 1` is negative or at least `|stack|` |
| `Assembly.CaptureFunctionName` | src/index.ts:37-38 | in range, `functionName` is the resolved name of `stack[frameIdx + 1]`; it is `"unknown"` only when the resolver gives no name |
| `Assembly.CaptureFrames` | src/index.ts:47-55 | in range, `|frame| == |stack| - (frameIdx + 1)` and `frame[i]` describes `stack[frameIdx + 1 + i]`, innermost first |
| `Assembly.CaptureHeadAgrees` | src/index.ts:37-53 | in range, `frame` is non-empty, and `frame[0]` has the top-level name, the untrimmed resolved file and the same line |
| `Assembly.CaptureCallerInfo` | src/index.ts:39-44 | in range, `callerInfo` splits into the name, the file (`""` when absent) minus its first `clamp(skip, 0, |file|)` characters, the line (0 when absent) and the column as printed |
| `Assembly.CaptureCallerInfoTemplate` | src/index.ts:44 | in range, `callerInfo == functionName + " (" + trimmed file + ":" + line text + ":" + column text + ")"`, the literal template |
| `Assembly.CaptureTrimMonotone` | src/index.test.ts:222-238 | for a fixed call site, a larger `skipFileNameAt` never gives a longer file part in `callerInfo` |
| `StackSnapshot.ErrorGlobal.BuildStack` | src/index.ts:6-11 | building a stack runs the snapshot closure only when it is the installed hook, and the closure hands back `raw.slice(1)` |
| `StackSnapshot.ErrorGlobal.Callsites` | src/index.ts:2-16 | the result is the raw frame list without its first element (`callsites` itself), and the hook holds its entry value on exit |
| `StackSnapshot.CallSiteCapture` | src/index.ts:20-24 | the result is the assembly applied to `raw[1..]`, and the global hook is left as it was found |
| `StackSnapshot.OffsetSelectsCaller` | src/index.ts:21-24 | offset `k` selects `raw[k + 2]`: 0 is the direct caller and `k` is the caller `k` levels further out; the frame list is `raw[k + 2..]` described in order; a `k` past the outermost captured frame gives the sentinel |

## Left out

- The V8 mechanism: assigning `Error.prepareStackTrace` and triggering it through `new Error('').stack`. The model takes the frame list the runtime would hand to the hook as the input `raw`, and `BuildStack` stands for the trigger. V8 cuts that list at `Error.stackTraceLimit` (10 by default), so "past the outermost frame" means past the outermost captured frame: with the default limit, an offset of 8 or more gives the sentinel even on a deeper stack, and `frame` holds at most 9 entries.
- `source-map-support`'s `wrapCallSite` and the CallSite getters. They are a foreign library. The model treats them as one uninterpreted total function, so it assumes that resolving the same call site twice gives the same answer. That assumption is what makes `frame[0]` agree with the top-level fields.
- Exceptions: Dafny has no exceptions. `Callsites` models the normal exit path of the `try`/`finally`. Nothing inside the `try` is expected to throw, and the restore is the last statement on that path.
- `!callSite`: CallSite objects are always truthy, so only a missing entry (`undefined`) leads to the sentinel. No other falsy value is modelled.
- Resolved line and column numbers: the resolver's line and column are taken to be non-negative integers below 1e21, as V8 call sites and source-map positions are. Other numbers (fractions, `NaN`, values that `toString()` prints in exponent notation) are not modelled.
- Arguments that are not integers (`NaN`, fractions, values beyond 2^53): `frameIdx` and `skipFileNameAt` are Dafny integers. The default parameter values (0 and 0) are left to the caller.
- JavaScript strings are sequences of UTF-16 code units. The model uses Dafny `char` sequences, so `substring` counts `char`s.
- Concurrency on the global hook: Node runs the function to completion, so no interleaving is modelled.
- `dist/index.cjs` and `dist/index.mjs` are build output with the same logic, and are not modelled separately.
- Frame offset sign: the code does not reject a negative `frameIdx`. `frameIdx = -1` selects `callSiteCapture`'s own frame (`raw[1]`), and lower values give the sentinel. The model follows the code, and `OffsetSelectsCaller` is stated for `k >= 0`.
