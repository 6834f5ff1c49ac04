/** Taking the call-site snapshot through the runtime's stack-trace hook
    (`callsites`), and the exported `callSiteCapture` built on it.

    The runtime's structured frame list at the moment the stack is built is
    an input `raw`: `raw[0]` is `callsites` itself, `raw[1]` is
    `callSiteCapture`, `raw[2]` its caller, and so on outwards, as far as
    the runtime's stack-trace limit lets the list reach. */
module StackSnapshot {
  import opened JsSemantics
  import opened Assembly

  /** Values the global `Error.prepareStackTrace` can hold: none installed,
      some other hook installed by the host program, or the snapshot
      closure that `callsites` installs. */
  datatype Hook = NoHook | HostHook(id: nat) | SnapshotHook

  /** The global `Error` constructor, reduced to its stack-trace hook. */
  class ErrorGlobal {
    var prepareStackTrace: Hook

    constructor (hook: Hook)
      ensures prepareStackTrace == hook
    {
      prepareStackTrace := hook;
    }

    /** Building the `stack` of a new error with frames `raw`: when the
        snapshot closure is installed it runs and hands back `raw.slice(1)`,
        the value it assigns to `callsites`' local `result`; any other hook
        leaves that local untouched. This stands in for `new Error('').stack`;
        `Callsites` installs the snapshot closure just before calling it, so
        there the second branch is never taken. */
    method BuildStack<F>(raw: seq<F>) returns (captured: Option<seq<F>>)
      ensures captured.Some? <==> prepareStackTrace == SnapshotHook
      ensures captured.Some? ==> captured.value == Slice(raw, 1)
    {
      if prepareStackTrace == SnapshotHook {
        captured := Some(Slice(raw, 1));
      } else {
        captured := None;
      }
    }

    /** `callsites()`: save the hook, install the snapshot closure, build a
        stack, restore the saved hook. The result is the frame list without
        `callsites`' own frame, and the hook is as it was on entry. */
    method Callsites<F>(raw: seq<F>) returns (result: seq<F>)
      modifies this
      ensures |raw| > 0 ==> result == raw[1..]
      ensures |raw| == 0 ==> result == []
      ensures prepareStackTrace == old(prepareStackTrace)
    {
      var saved := prepareStackTrace;
      result := [];
      prepareStackTrace := SnapshotHook;
      var captured := BuildStack(raw);
      if captured.Some? {
        result := captured.value;
      }
      prepareStackTrace := saved;
    }
  }

  /** `callSiteCapture(frameIdx, skipFileNameAt)`: the snapshot, then the
      assembly of the result; the global hook is left as it was found. */
  method CallSiteCapture<F>(error: ErrorGlobal, raw: seq<F>, resolve: F -> ResolvedFrame,
                            frameIdx: int, skipFileNameAt: int) returns (r: CaptureResult)
    modifies error
    ensures r == Capture(Slice(raw, 1), resolve, frameIdx, skipFileNameAt)
    ensures error.prepareStackTrace == old(error.prepareStackTrace)
  {
    var stackTrace := error.Callsites(raw);
    r := Capture(stackTrace, resolve, frameIdx, skipFileNameAt);
  }

  /** With the snapshot dropping `callsites` and the `+ 1` dropping
      `callSiteCapture`, offset `k` selects `raw[k + 2]`: offset 0 is the
      direct caller, offset `k` the caller `k` levels further out. Offsets
      that run past the outermost frame give the sentinel. */
  lemma OffsetSelectsCaller<F>(raw: seq<F>, resolve: F -> ResolvedFrame, k: nat, skipFileNameAt: int)
    ensures var r := Capture(Slice(raw, 1), resolve, k, skipFileNameAt);
      (k + 2 < |raw| ==>
        r.functionName == Coalesce(resolve(raw[k + 2]).functionName, "unknown") &&
        r.stackFrames.frame == DescribeAll(raw[k + 2..], resolve)) &&
      (k + 2 >= |raw| ==> r == Unknown)
  {
  }
}
