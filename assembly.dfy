/** The assembly step of `callSiteCapture`: given the snapshot of call
    sites (innermost first, `callSiteCapture`'s own frame at index 0), a
    frame offset and a path-prefix length, build the result record.

    Call sites are values of an arbitrary type `F`. The source-map
    resolver (`wrapCallSite` followed by the four getters) is a total
    function `resolve` from a call site to a `ResolvedFrame`; each of its
    four fields may be absent. */
module Assembly {
  import opened JsSemantics

  /** What the resolver reports for one call site. */
  datatype ResolvedFrame = ResolvedFrame(
    functionName: Nullish<string>,
    fileName: Nullish<string>,
    lineNumber: Nullish<nat>,
    columnNumber: Nullish<nat>)

  /** One entry of `stackFrames.frame`; `None` stands for `undefined`. */
  datatype FrameDescriptor = FrameDescriptor(
    functionName: string,
    fileName: string,
    lineNumber: Option<string>,
    columnNumber: Option<string>)

  datatype StackFrames = StackFrames(frame: seq<FrameDescriptor>)

  datatype CaptureResult = CaptureResult(
    callerInfo: string,
    functionName: string,
    stackFrames: StackFrames)

  /** The record returned when no frame exists at the target index. */
  const Unknown := CaptureResult("unknown (unknown:0:0)", "unknown", StackFrames([]))

  /** The descriptor built for one resolved frame: name and file default to
      "unknown", line and column are the decimal text of the number when
      there is one and `undefined` otherwise. */
  function Describe(w: ResolvedFrame): (d: FrameDescriptor)
    ensures w.functionName.Present? ==> d.functionName == w.functionName.value
    ensures !w.functionName.Present? ==> d.functionName == "unknown"
    ensures w.fileName.Present? ==> d.fileName == w.fileName.value
    ensures !w.fileName.Present? ==> d.fileName == "unknown"
    ensures d.lineNumber.Some? <==> w.lineNumber.Present?
    ensures d.lineNumber.Some? ==> IsDecimalOf(d.lineNumber.value, w.lineNumber.value)
    ensures d.columnNumber.Some? <==> w.columnNumber.Present?
    ensures d.columnNumber.Some? ==> IsDecimalOf(d.columnNumber.value, w.columnNumber.value)
  {
    FrameDescriptor(
      Coalesce(w.functionName, "unknown"),
      Coalesce(w.fileName, "unknown"),
      OptionalToString(w.lineNumber),
      OptionalToString(w.columnNumber))
  }

  /** `frames.map(...)`: every call site resolved and described on its own,
      in the same order. */
  function DescribeAll<F>(frames: seq<F>, resolve: F -> ResolvedFrame): (ds: seq<FrameDescriptor>)
    ensures |ds| == |frames|
    ensures forall i :: 0 <= i < |frames| ==> ds[i] == Describe(resolve(frames[i]))
  {
    if frames == [] then [] else [Describe(resolve(frames[0]))] + DescribeAll(frames[1..], resolve)
  }

  /** The `callerInfo` line: `<name> (<file>:<line>:<column>)`. It opens
      with the name and " (" and closes with ")". */
  function CallerInfo(functionName: string, baseFileName: string, lineNumber: nat, column: Nullish<nat>): (r: string)
    ensures |r| > |functionName| + 2 && r[..|functionName| + 2] == functionName + " ("
    ensures r[|r| - 1] == ')'
  {
    functionName + " (" + baseFileName + ":" + DecimalString(lineNumber) + ":" + TemplateText(column) + ")"
  }

  /** Reads a `callerInfo` line back from the right: the part before the
      second-to-last colon, the line text and the column text. */
  function ParseCallerInfo(s: string): Option<(string, string, string)>
  {
    if s == [] || s[|s| - 1] != ')' then None
    else
      match SplitLast(s[..|s| - 1], ':')
      case None => None
      case Some((rest, column)) =>
        match SplitLast(rest, ':')
        case None => None
        case Some((head, line)) => Some((head, line, column))
  }

  /** A `callerInfo` line can be taken apart unambiguously from the right,
      whatever colons or parentheses the name and the file contain. */
  lemma CallerInfoParses(functionName: string, baseFileName: string, lineNumber: nat, column: Nullish<nat>)
    ensures ParseCallerInfo(CallerInfo(functionName, baseFileName, lineNumber, column))
         == Some((functionName + " (" + baseFileName, DecimalString(lineNumber), TemplateText(column)))
  {
    var head := functionName + " (" + baseFileName;
    var line, col := DecimalString(lineNumber), TemplateText(column);
    var s := CallerInfo(functionName, baseFileName, lineNumber, column);
    assert s == head + [':'] + line + [':'] + col + [')'];
    assert s[..|s| - 1] == (head + [':'] + line) + [':'] + col;
    TemplateTextHasNoColon(column);
    SplitLastJoin(head + [':'] + line, ':', col);
    DecimalHasNoColon(line);
    SplitLastJoin(head, ':', line);
  }

  /** Conversely, whatever the parser accepts is exactly
      `<head>:<line>:<column>)`, so the parse determines the line. */
  lemma ParseCallerInfoRejoin(s: string, head: string, line: string, column: string)
    requires ParseCallerInfo(s) == Some((head, line, column))
    ensures s == head + ":" + line + ":" + column + ")"
  {
    var body := s[..|s| - 1];
    var rest :| SplitLast(body, ':') == Some((rest, column));
    SplitLastRejoin(body, ':', rest, column);
    SplitLastRejoin(rest, ':', head, line);
    assert s == body + [')'];
  }

  /** The sentinel line has the same shape, with line and column 0. */
  lemma UnknownIsCallerInfo()
    ensures Unknown.callerInfo == CallerInfo("unknown", "unknown", 0, Present(0))
    ensures ParseCallerInfo(Unknown.callerInfo) == Some(("unknown (unknown", "0", "0"))
  {
    assert DecimalString(0) == "0";
    assert TemplateText(Present(0)) == "0";
    CallerInfoParses("unknown", "unknown", 0, Present(0));
    assert "unknown" + " (" + "unknown" == "unknown (unknown";
  }

  /** Whether `frameIdx` names an existing frame of `stack`. */
  predicate InRange<F>(stack: seq<F>, frameIdx: int)
  {
    0 <= frameIdx + 1 < |stack|
  }

  /** The result of `callSiteCapture(frameIdx, skipFileNameAt)` once the
      snapshot `stack` is taken. The target is `stack[frameIdx + 1]`; the
      `+ 1` skips `callSiteCapture` itself. */
  function Capture<F>(stack: seq<F>, resolve: F -> ResolvedFrame, frameIdx: int, skipFileNameAt: int): (r: CaptureResult)
    ensures r.stackFrames.frame == [] <==> !InRange(stack, frameIdx)
    ensures !InRange(stack, frameIdx) ==> r == Unknown
  {
    var targetFrameIdx := frameIdx + 1;
    match Lookup(stack, targetFrameIdx)
    case None => Unknown
    case Some(callSite) =>
      var wrapped := resolve(callSite);
      var functionName := Coalesce(wrapped.functionName, "unknown");
      var fileName := Coalesce(wrapped.fileName, "");
      var baseFileName := Substring(fileName, skipFileNameAt);
      var lineNumber := Coalesce(wrapped.lineNumber, 0);
      CaptureResult(
        CallerInfo(functionName, baseFileName, lineNumber, wrapped.columnNumber),
        functionName,
        StackFrames(DescribeAll(Slice(stack, targetFrameIdx), resolve)))
  }

  /** The sentinel is returned exactly when the target index is out of range. */
  lemma CaptureUnknownIff<F>(stack: seq<F>, resolve: F -> ResolvedFrame, frameIdx: int, skipFileNameAt: int)
    ensures Capture(stack, resolve, frameIdx, skipFileNameAt) == Unknown <==> !InRange(stack, frameIdx)
  {
  }

  /** The top-level name is the resolved name of the target frame; it is
      "unknown" only when the resolver gives none, and an empty name passes
      through. */
  lemma CaptureFunctionName<F>(stack: seq<F>, resolve: F -> ResolvedFrame, frameIdx: int, skipFileNameAt: int)
    requires InRange(stack, frameIdx)
    ensures var name := resolve(stack[frameIdx + 1]).functionName;
      var r := Capture(stack, resolve, frameIdx, skipFileNameAt);
      (name.Present? ==> r.functionName == name.value) &&
      (!name.Present? ==> r.functionName == "unknown")
  {
  }

  /** `stackFrames.frame` holds one descriptor per frame from the target to
      the bottom of the snapshot, in snapshot order. */
  lemma CaptureFrames<F>(stack: seq<F>, resolve: F -> ResolvedFrame, frameIdx: int, skipFileNameAt: int)
    requires InRange(stack, frameIdx)
    ensures var frame := Capture(stack, resolve, frameIdx, skipFileNameAt).stackFrames.frame;
      |frame| == |stack| - (frameIdx + 1) &&
      forall i :: 0 <= i < |frame| ==> frame[i] == Describe(resolve(stack[frameIdx + 1 + i]))
  {
  }

  /** The first descriptor describes the same frame as the top-level fields:
      the same name, the full file that `callerInfo` trims, the same line. */
  lemma CaptureHeadAgrees<F>(stack: seq<F>, resolve: F -> ResolvedFrame, frameIdx: int, skipFileNameAt: int)
    requires InRange(stack, frameIdx)
    ensures var r := Capture(stack, resolve, frameIdx, skipFileNameAt);
      var w := resolve(stack[frameIdx + 1]);
      r.stackFrames.frame != [] &&
      r.stackFrames.frame[0].functionName == r.functionName &&
      (w.fileName.Present? ==> r.stackFrames.frame[0].fileName == w.fileName.value) &&
      (w.lineNumber.Present? ==> r.stackFrames.frame[0].lineNumber == Some(DecimalString(w.lineNumber.value)))
  {
  }

  /** `callerInfo` is the target's name, its file with the first
      `skipFileNameAt` characters (clamped to the file's length) removed, its
      line (0 when absent) and its column as printed (no fallback). */
  lemma CaptureCallerInfo<F>(stack: seq<F>, resolve: F -> ResolvedFrame, frameIdx: int, skipFileNameAt: int)
    requires InRange(stack, frameIdx)
    ensures var r := Capture(stack, resolve, frameIdx, skipFileNameAt);
      var w := resolve(stack[frameIdx + 1]);
      var file := Coalesce(w.fileName, "");
      var base := Substring(file, skipFileNameAt);
      ParseCallerInfo(r.callerInfo)
        == Some((r.functionName + " (" + base, DecimalString(Coalesce(w.lineNumber, 0)), TemplateText(w.columnNumber))) &&
      |base| == |file| - Clamp(skipFileNameAt, 0, |file|) &&
      base == file[Clamp(skipFileNameAt, 0, |file|)..]
  {
    var w := resolve(stack[frameIdx + 1]);
    var file := Coalesce(w.fileName, "");
    CallerInfoParses(Coalesce(w.functionName, "unknown"), Substring(file, skipFileNameAt),
                     Coalesce(w.lineNumber, 0), w.columnNumber);
  }

  /** The same fact as the literal template: `callerInfo` is
      `<name> (<trimmed file>:<line>:<column>)`. */
  lemma CaptureCallerInfoTemplate<F>(stack: seq<F>, resolve: F -> ResolvedFrame, frameIdx: int, skipFileNameAt: int)
    requires InRange(stack, frameIdx)
    ensures var r := Capture(stack, resolve, frameIdx, skipFileNameAt);
      var w := resolve(stack[frameIdx + 1]);
      r.callerInfo == r.functionName + " (" + Substring(Coalesce(w.fileName, ""), skipFileNameAt) + ":"
                      + DecimalString(Coalesce(w.lineNumber, 0)) + ":" + TemplateText(w.columnNumber) + ")"
  {
    var r := Capture(stack, resolve, frameIdx, skipFileNameAt);
    var w := resolve(stack[frameIdx + 1]);
    CaptureCallerInfo(stack, resolve, frameIdx, skipFileNameAt);
    ParseCallerInfoRejoin(r.callerInfo,
                          r.functionName + " (" + Substring(Coalesce(w.fileName, ""), skipFileNameAt),
                          DecimalString(Coalesce(w.lineNumber, 0)), TemplateText(w.columnNumber));
  }

  /** For a fixed call site, a longer prefix to skip never gives a longer
      file part in `callerInfo`. */
  lemma CaptureTrimMonotone<F>(stack: seq<F>, resolve: F -> ResolvedFrame, frameIdx: int, a: int, b: int)
    requires InRange(stack, frameIdx)
    requires a <= b
    ensures ParseCallerInfo(Capture(stack, resolve, frameIdx, a).callerInfo).Some?
    ensures ParseCallerInfo(Capture(stack, resolve, frameIdx, b).callerInfo).Some?
    ensures |ParseCallerInfo(Capture(stack, resolve, frameIdx, b).callerInfo).value.0|
         <= |ParseCallerInfo(Capture(stack, resolve, frameIdx, a).callerInfo).value.0|
  {
    CaptureCallerInfo(stack, resolve, frameIdx, a);
    CaptureCallerInfo(stack, resolve, frameIdx, b);
    var file := Coalesce(resolve(stack[frameIdx + 1]).fileName, "");
    SubstringMonotone(file, a, b);
  }
}
