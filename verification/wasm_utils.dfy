/** The JavaScript-side copy of a diagnostic (frontend/src/lib/wasmUtils.ts):
    the wasm struct's getters read into a plain object. */
module WasmUtils {

  import opened Wrappers
  import opened Ints
  import opened WebStructs

  /** The `{ start, end }` literal built for the span. */
  datatype SpanObject = SpanObject(start: u32, end: u32)

  /** The object literal `sourceDiagnosticToObject` returns: exactly these five keys. */
  datatype DiagnosticObject = DiagnosticObject(
    severity: string, span: SpanObject, message: string, trace: seq<TraceEntry>, hints: seq<string>)

  /** `sourceDiagnosticToObject`. */
  function ToObject(d: SourceDiagnostic): (o: DiagnosticObject)
    ensures o.severity == d.severity && o.message == d.message
    ensures o.span.start == d.span.start && o.span.end == d.span.end
    ensures o.trace == d.trace && o.hints == d.hints
  {
    DiagnosticObject(d.severity, SpanObject(d.span.start, d.span.end), d.message, d.trace, d.hints)
  }

  /** Rebuilding the wasm struct from the object. */
  function FromObject(o: DiagnosticObject): SourceDiagnostic {
    SourceDiagnostic(o.severity, Span(o.span.start, o.span.end), o.message, o.trace, o.hints)
  }

  /** The copy loses nothing. */
  lemma ToObjectRoundTrip(d: SourceDiagnostic)
    ensures FromObject(ToObject(d)) == d
  {
  }

  /** Every object of this shape is the copy of exactly one diagnostic. */
  lemma FromObjectRoundTrip(o: DiagnosticObject)
    ensures ToObject(FromObject(o)) == o
  {
  }

  /** Two diagnostics with the same copy are the same diagnostic. */
  lemma ToObjectInjective(a: SourceDiagnostic, b: SourceDiagnostic)
    ensures ToObject(a) == ToObject(b) ==> a == b
  {
    ToObjectRoundTrip(a);
    ToObjectRoundTrip(b);
  }

  /** Copying a list of diagnostics, as the callers of `sourceDiagnosticToObject` do. */
  function ToObjects(ds: seq<SourceDiagnostic>): (os: seq<DiagnosticObject>)
    ensures |os| == |ds|
    ensures forall i :: 0 <= i < |ds| ==> os[i] == ToObject(ds[i])
  {
    if |ds| == 0 then [] else [ToObject(ds[0])] + ToObjects(ds[1..])
  }

  function FromObjects(os: seq<DiagnosticObject>): (ds: seq<SourceDiagnostic>)
    ensures |ds| == |os|
  {
    if |os| == 0 then [] else [FromObject(os[0])] + FromObjects(os[1..])
  }

  lemma {:induction false} ToObjectsRoundTrip(ds: seq<SourceDiagnostic>)
    ensures FromObjects(ToObjects(ds)) == ds
  {
    if |ds| > 0 {
      ToObjectsRoundTrip(ds[1..]);
      assert ToObjects(ds)[1..] == ToObjects(ds[1..]);
      assert [ds[0]] + ds[1..] == ds;
    }
  }

  /** A diagnostic from the compiler reaches JavaScript with its severity as
      `"Warning"` or `"Error"`, its message and hints verbatim, and its
      32-bit span bounds unchanged. */
  lemma CompilerDiagnosticObject(d: TypstDiagnostic, ranges: RangeMap)
    requires Resolves(d, ranges)
    requires ranges[d.span].start < TWO_TO_THE_32 && ranges[d.span].end < TWO_TO_THE_32
    ensures var o := ToObject(FromSourceDiagnostic(d, ranges));
      && ParseSeverity(o.severity) == Some(d.severity)
      && o.message == d.message && o.hints == d.hints
      && o.span == SpanObject(ranges[d.span].start, ranges[d.span].end)
  {
  }
}
