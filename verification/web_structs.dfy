/** Diagnostic marshalling (wasm/src/web_structs.rs): the compiler's
    diagnostics turned into plain structs with `u32` spans. */
module WebStructs {

  import opened Wrappers
  import opened Ints

  /** `typst::diag::Severity`. */
  datatype Severity = Error | Warning

  /** A `typst::syntax::Span`: an opaque handle the world resolves to a byte range. */
  type SpanId = nat

  /** A `std::ops::Range<usize>`; nothing forces `start <= end`. */
  datatype Range = Range(start: nat, end: nat)

  /** The world's `range` lookup: spans it can resolve, and their ranges. A
      span missing from the map is one `world.range` answers `None` for. */
  type RangeMap = map<SpanId, Range>

  /** One entry of a diagnostic's trace; `point` is the tracepoint already
      rendered as text. */
  datatype TypstTrace = TypstTrace(point: string, span: SpanId)

  /** `typst::diag::SourceDiagnostic`, reduced to the fields that are copied. */
  datatype TypstDiagnostic = TypstDiagnostic(
    severity: Severity, span: SpanId, message: string, trace: seq<TypstTrace>, hints: seq<string>)

  /** `Span`: byte offsets as `u32`, so that JavaScript sees numbers, not bigints. */
  datatype Span = Span(start: u32, end: u32)

  datatype TraceEntry = TraceEntry(tracepoint: string, span: Span)

  /** `SourceDiagnostic`, the struct handed to JavaScript. */
  datatype SourceDiagnostic = SourceDiagnostic(
    severity: string, span: Span, message: string, trace: seq<TraceEntry>, hints: seq<string>)

  /** `Span::from_range`: both bounds cast with `as u32`. */
  function FromRange(r: Range): (s: Span)
    ensures (s.start - r.start) % TWO_TO_THE_32 == 0 && (s.end - r.end) % TWO_TO_THE_32 == 0
    ensures r.start < TWO_TO_THE_32 ==> s.start == r.start
    ensures r.end < TWO_TO_THE_32 ==> s.end == r.end
  {
    Span(AsU32(r.start), AsU32(r.end))
  }

  /** A range whose bounds fit in 32 bits keeps its order and its length. */
  lemma FromRangeKeepsOrder(r: Range)
    requires r.start <= r.end < TWO_TO_THE_32
    ensures FromRange(r).start <= FromRange(r).end
    ensures FromRange(r).end - FromRange(r).start == r.end - r.start
  {
  }

  /** Past 32 bits the cast wraps: the range from 2^32 to 2^32 + 1 becomes 0..1. */
  lemma FromRangeWraps()
    ensures FromRange(Range(TWO_TO_THE_32, TWO_TO_THE_32 + 1)) == Span(0, 1)
  {
  }

  /** `TraceEntry::new_with_range`. */
  function NewWithRange(tracepoint: string, r: Range): (e: TraceEntry)
    ensures e.tracepoint == tracepoint
    ensures e.span == FromRange(r)
  {
    TraceEntry(tracepoint, FromRange(r))
  }

  /** The `severity` string. */
  function SeverityName(s: Severity): (r: string)
    ensures r == "Warning" <==> s == Warning
    ensures r == "Warning" || r == "Error"
  {
    if s == Warning then "Warning" else "Error"
  }

  /** Reading the `severity` string back. */
  function ParseSeverity(name: string): Option<Severity> {
    if name == "Warning" then Some(Warning)
    else if name == "Error" then Some(Error)
    else None
  }

  lemma SeverityRoundTrip(s: Severity)
    ensures ParseSeverity(SeverityName(s)) == Some(s)
  {
  }

  /** Every span of the trace resolves. */
  predicate TraceResolves(trace: seq<TypstTrace>, ranges: RangeMap) {
    forall i :: 0 <= i < |trace| ==> trace[i].span in ranges
  }

  /** The `trace` conversion: each entry through `new_with_range`, order kept. */
  function ConvertTrace(trace: seq<TypstTrace>, ranges: RangeMap): (r: seq<TraceEntry>)
    requires TraceResolves(trace, ranges)
    ensures |r| == |trace|
    ensures forall i :: 0 <= i < |trace| ==> r[i] == NewWithRange(trace[i].point, ranges[trace[i].span])
  {
    if |trace| == 0 then [] else [NewWithRange(trace[0].point, ranges[trace[0].span])] + ConvertTrace(trace[1..], ranges)
  }

  /** Converting a trace piecewise gives the same entries. */
  lemma {:induction false} ConvertTraceAppend(a: seq<TypstTrace>, b: seq<TypstTrace>, ranges: RangeMap)
    requires TraceResolves(a, ranges) && TraceResolves(b, ranges)
    ensures TraceResolves(a + b, ranges)
    ensures ConvertTrace(a + b, ranges) == ConvertTrace(a, ranges) + ConvertTrace(b, ranges)
  {
    assert forall i :: 0 <= i < |a + b| ==> (a + b)[i] == (if i < |a| then a[i] else b[i - |a|]);
    var l := ConvertTrace(a + b, ranges);
    var r := ConvertTrace(a, ranges) + ConvertTrace(b, ranges);
    assert |l| == |r|;
    forall i | 0 <= i < |l|
      ensures l[i] == r[i]
    {
      if i < |a| {
        assert (a + b)[i] == a[i];
      } else {
        assert (a + b)[i] == b[i - |a|];
      }
    }
  }

  /** The spans the conversion unwraps: the main span and every trace span. */
  predicate Resolves(d: TypstDiagnostic, ranges: RangeMap) {
    d.span in ranges && TraceResolves(d.trace, ranges)
  }

  /** `SourceDiagnostic::from_source_diagnostic_and_world`. Both `unwrap`s
      panic on a span the world cannot resolve, hence the precondition. */
  function FromSourceDiagnostic(d: TypstDiagnostic, ranges: RangeMap): (r: SourceDiagnostic)
    requires Resolves(d, ranges)
    ensures ParseSeverity(r.severity) == Some(d.severity)
    ensures r.span == FromRange(ranges[d.span])
    ensures r.message == d.message && r.hints == d.hints
    ensures |r.trace| == |d.trace|
    ensures forall i :: 0 <= i < |d.trace| ==>
      r.trace[i].tracepoint == d.trace[i].point && r.trace[i].span == FromRange(ranges[d.trace[i].span])
  {
    SeverityRoundTrip(d.severity);
    SourceDiagnostic(SeverityName(d.severity), FromRange(ranges[d.span]), d.message, ConvertTrace(d.trace, ranges), d.hints)
  }

  /** Whether every diagnostic of a list resolves. */
  predicate AllResolve(ds: seq<TypstDiagnostic>, ranges: RangeMap) {
    forall i :: 0 <= i < |ds| ==> Resolves(ds[i], ranges)
  }

  /** The `iter().map(...).collect()` `compile` applies to error and warning lists. */
  function ConvertAll(ds: seq<TypstDiagnostic>, ranges: RangeMap): (r: seq<SourceDiagnostic>)
    requires AllResolve(ds, ranges)
    ensures |r| == |ds|
    ensures forall i :: 0 <= i < |ds| ==> r[i] == FromSourceDiagnostic(ds[i], ranges)
  {
    if |ds| == 0 then [] else [FromSourceDiagnostic(ds[0], ranges)] + ConvertAll(ds[1..], ranges)
  }

  /** A diagnostic converted with 32-bit ranges can be read back: the
      severity, message, hints, tracepoints and every byte range. */
  lemma {:induction false} ConversionKeepsRanges(d: TypstDiagnostic, ranges: RangeMap)
    requires Resolves(d, ranges)
    requires forall s :: s in ranges ==> ranges[s].start < TWO_TO_THE_32 && ranges[s].end < TWO_TO_THE_32
    ensures var r := FromSourceDiagnostic(d, ranges);
      && r.span.start == ranges[d.span].start && r.span.end == ranges[d.span].end
      && forall i :: 0 <= i < |d.trace| ==>
           r.trace[i].span.start == ranges[d.trace[i].span].start && r.trace[i].span.end == ranges[d.trace[i].span].end
  {
    var r := FromSourceDiagnostic(d, ranges);
    forall i | 0 <= i < |d.trace|
      ensures r.trace[i].span.start == ranges[d.trace[i].span].start
      ensures r.trace[i].span.end == ranges[d.trace[i].span].end
    {
      assert d.trace[i].span in ranges;
    }
  }
}
