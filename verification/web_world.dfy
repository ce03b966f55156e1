/** The `WebWorld` the editor drives (wasm/src/lib.rs): the source text, the
    fonts, and what the last compilation left behind. The Typst compiler, the
    autocompleter, the SVG renderer, font parsing, the clock and the calendar
    are not part of this model; each enters as a function parameter. */
module WebWorld {

  import opened Wrappers
  import opened Ints
  import opened WebStructs
  import opened IdeStructs

  /** A font's metadata, as the font book stores it. */
  datatype FontInfo = FontInfo(family: string)

  /** A parsed font and its metadata (`font.info()`). */
  datatype Font = Font(data: seq<bv8>, info: FontInfo)

  /** One page of a compiled document. */
  datatype Page = Page(frame: nat)

  /** A `PagedDocument`. */
  datatype Document = Document(pages: seq<Page>)

  /** A UTC instant, as `Utc::now()` reads it. */
  datatype Instant = Instant(millis: int)

  /** A calendar date, as `Datetime::from_ymd` builds it. */
  datatype Date = Date(year: int, month: nat, day: nat)

  /** A `FileId`: an optional package and a path inside it. */
  datatype FileId = FileId(package: Option<string>, path: string)

  /** The file every compilation starts from. */
  const MAIN: FileId := FileId(None, "/main.typ")

  /** A `Source`: a file's id and text. */
  datatype Source = Source(id: FileId, text: string)

  /** What `typst::compile` returns: a document or the errors, and the warnings either way. */
  datatype Warned = Warned(output: Result<Document, seq<TypstDiagnostic>>, warnings: seq<TypstDiagnostic>)

  /** The `WebWorld` fields the model tracks. `book` is the font book, one
      entry per added font. */
  datatype World = World(
    source: string,
    fonts: seq<Font>,
    book: seq<FontInfo>,
    main: FileId,
    now: Option<Instant>,
    output: Option<Result<Document, seq<SourceDiagnostic>>>,
    warnings: seq<SourceDiagnostic>)

  /** The font book describes exactly the added fonts, in order. */
  predicate BookInSync(w: World) {
    |w.book| == |w.fonts| && forall i :: 0 <= i < |w.fonts| ==> w.book[i] == w.fonts[i].info
  }

  /** What the compiler can see of a world through the `World` trait: the
      main file, the source, the fonts and the clock, but not the results of
      earlier compilations. */
  datatype WorldView = WorldView(main: FileId, source: string, fonts: seq<Font>, book: seq<FontInfo>, now: Option<Instant>)

  function View(w: World): WorldView {
    WorldView(w.main, w.source, w.fonts, w.book, w.now)
  }

  /** `WebWorld::new`. */
  function New(): (w: World)
    ensures BookInSync(w)
    ensures w.main == MAIN
  {
    World("", [], [], MAIN, None, None, [])
  }

  /** `add_font`. `Font::new(..).unwrap()` panics on data that is not a font,
      hence the precondition. */
  function AddFont(w: World, data: seq<bv8>, parse: seq<bv8> -> Option<Font>): (r: World)
    requires parse(data).Some?
    requires BookInSync(w)
    ensures BookInSync(r)
    ensures |r.fonts| == |w.fonts| + 1 && r.fonts[|w.fonts|] == parse(data).value
    ensures r.fonts[..|w.fonts|] == w.fonts
    ensures r.source == w.source && r.main == w.main && r.now == w.now && r.output == w.output && r.warnings == w.warnings
  {
    var font := parse(data).value;
    World(w.source, w.fonts + [font], w.book + [font.info], w.main, w.now, w.output, w.warnings)
  }

  /** `errors`: the error list of a compilation that failed, otherwise empty. */
  function Errors(w: World): (r: seq<SourceDiagnostic>)
    ensures w.output.Some? && w.output.value.Failure? ==> r == w.output.value.error
    ensures w.output.None? || w.output.value.Success? ==> r == []
  {
    match w.output
    case Some(Failure(es)) => es
    case _ => []
  }

  /** `warnings`. */
  function Warnings(w: World): (r: seq<SourceDiagnostic>)
    ensures r == w.warnings
  {
    w.warnings
  }

  /** Every diagnostic a compilation reports resolves against `ranges`. Every
      conversion `unwrap`s `world.range`, which panics otherwise. */
  predicate Resolvable(out: Warned, ranges: RangeMap) {
    AllResolve(out.warnings, ranges) && (out.output.Failure? ==> AllResolve(out.output.error, ranges))
  }

  /** `compile`: stamp the clock, compile the stored source, and replace both
      the stored output and the warnings with the converted results.
      `compiler` is `typst::compile` and sees the world with the new clock;
      `ranges` is `world.range` for the compiled source. */
  function Compile(w: World, clock: Instant, compiler: WorldView -> Warned, ranges: RangeMap): (r: World)
    requires Resolvable(compiler(View(w.(now := Some(clock)))), ranges)
    ensures r.now == Some(clock)
    ensures r.output.Some?
    ensures r.output.value.Success? <==> compiler(View(w.(now := Some(clock)))).output.Success?
    ensures r.warnings == ConvertAll(compiler(View(w.(now := Some(clock)))).warnings, ranges)
    ensures r.source == w.source && r.fonts == w.fonts && r.book == w.book && r.main == w.main
  {
    var stamped := w.(now := Some(clock));
    var out := compiler(View(stamped));
    var output := match out.output
      case Success(doc) => Success(doc)
      case Failure(es) => Failure(ConvertAll(es, ranges));
    stamped.(output := Some(output), warnings := ConvertAll(out.warnings, ranges))
  }

  /** `render_svg`: the first page of a successful compilation. `pages[0]`
      panics on a document without pages, hence the precondition; the
      compiler never returns one. `svg` is `typst_svg::svg`. */
  function RenderSvg(w: World, svg: Page -> string): (r: Option<string>)
    requires w.output.Some? && w.output.value.Success? ==> |w.output.value.value.pages| > 0
    ensures r.Some? <==> w.output.Some? && w.output.value.Success?
    ensures r.Some? ==> r.value == svg(w.output.value.value.pages[0])
  {
    match w.output
    case Some(Success(doc)) => Some(svg(doc.pages[0]))
    case _ => None
  }

  /** What `typst_ide::autocomplete` answers: an offset and the candidates. */
  datatype IdeAnswer = IdeAnswer(position: nat, completions: seq<TypstCompletion>)

  /** `typst_ide::autocomplete`: it reads the world (its fonts, for instance),
      the document if there is one, the main source, the cursor and the
      `explicit` flag. */
  type Autocompleter = (WorldView, Option<Document>, Source, nat, bool) -> Option<IdeAnswer>

  /** `autocomplete`. Nothing before the first compilation; afterwards the
      autocompleter `ide` is asked with the world, the document (if the
      compilation succeeded), the main source, the cursor and the `explicit`
      flag, and its candidates are converted one by one. */
  function Autocomplete(w: World, cursor: u32, explicit: bool, ide: Autocompleter): (r: Option<Autocomplete>)
    ensures w.output.None? ==> r.None?
    ensures w.output.Some? ==>
      var doc := if w.output.value.Success? then Some(w.output.value.value) else None;
      var answer := ide(View(w), doc, SourceOf(w, MAIN), cursor, explicit);
      && (r.Some? <==> answer.Some?)
      && (r.Some? ==>
            && r.value.completions == MapCompletions(answer.value.completions)
            && r.value.position == AsU32(answer.value.position))
  {
    match w.output
    case None => None
    case Some(out) =>
      var doc := if out.Success? then Some(out.value) else None;
      match ide(View(w), doc, SourceOf(w, MAIN), cursor, explicit)
      case None => None
      case Some(answer) => Some(AutocompleteFrom(answer.position, MapCompletions(answer.completions)))
  }

  /** `World::source`: every id, not only the main file, resolves to the stored text. */
  function SourceOf(w: World, id: FileId): (r: Source)
    ensures r.text == w.source && r.id == id
  {
    Source(id, w.source)
  }

  /** `World::file`: the stored text for every id (its UTF-8 encoding is not modelled). */
  function FileOf(w: World, id: FileId): (r: string)
    ensures r == SourceOf(w, MAIN).text
  {
    w.source
  }

  /** `World::font`: the `index`-th added font, if there is one. */
  function FontAt(w: World, index: nat): (r: Option<Font>)
    ensures r.Some? <==> index < |w.fonts|
    ensures r.Some? ==> r.value == w.fonts[index]
  {
    if index < |w.fonts| then Some(w.fonts[index]) else None
  }

  /** The fixed offset `today(Some(hours))` asks for, in seconds:
      `i32::try_from(hours)` and `checked_mul(3600)` both fail outside `i32`. */
  function OffsetSeconds(hours: i64): (r: Option<int>)
    ensures r.Some? <==> InI32(hours) && InI32(hours * 3600)
    ensures r.Some? ==> r.value == hours * 3600
  {
    if !InI32(hours) then None
    else if !InI32(hours * 3600) then None
    else Some(hours * 3600)
  }

  /** Seconds in a day; chrono's `FixedOffset::east_opt` accepts only offsets
      strictly inside one day either way. */
  const SECONDS_PER_DAY := 86_400

  /** `FixedOffset::east_opt`. */
  function EastOpt(seconds: int): (r: Option<int>)
    ensures r.Some? <==> -SECONDS_PER_DAY < seconds < SECONDS_PER_DAY
    ensures r.Some? ==> r.value == seconds
  {
    if -SECONDS_PER_DAY < seconds < SECONDS_PER_DAY then Some(seconds) else None
  }

  /** `World::today`. `local` is the date in the host's time zone; `fixed` is
      the date at an accepted offset in seconds; either is `None` when chrono
      rejects the date. */
  function Today(w: World, offset: Option<i64>,
                 local: Instant -> Option<Date>, fixed: (Instant, int) -> Option<Date>): (r: Option<Date>)
    ensures w.now.None? ==> r.None?
    ensures offset.Some? && OffsetSeconds(offset.value).None? ==> r.None?
    ensures offset.None? && w.now.Some? ==> r == local(w.now.value)
    ensures offset.Some? && OffsetSeconds(offset.value).Some? && EastOpt(OffsetSeconds(offset.value).value).None? ==> r.None?
    ensures offset.Some? && OffsetSeconds(offset.value).Some? && w.now.Some? && EastOpt(OffsetSeconds(offset.value).value).Some? ==>
      r == fixed(w.now.value, OffsetSeconds(offset.value).value)
  {
    match offset
    case None => if w.now.None? then None else local(w.now.value)
    case Some(hours) =>
      match OffsetSeconds(hours)
      case None => None
      case Some(seconds) =>
        if w.now.None? then None
        else match EastOpt(seconds)
          case None => None
          case Some(east) => fixed(w.now.value, east)
  }

  // ---------------------------------------------------------------------------
  // How the operations relate

  /** A new world has nothing to report: no errors, no warnings, no SVG, no
      completions, no fonts and no date. */
  lemma NewIsBlank(svg: Page -> string, cursor: u32, explicit: bool,
                   ide: Autocompleter,
                   index: nat, offset: Option<i64>,
                   local: Instant -> Option<Date>, fixed: (Instant, int) -> Option<Date>)
    ensures Errors(New()) == [] && Warnings(New()) == []
    ensures RenderSvg(New(), svg).None?
    ensures Autocomplete(New(), cursor, explicit, ide).None?
    ensures FontAt(New(), index).None?
    ensures Today(New(), offset, local, fixed).None?
    ensures SourceOf(New(), MAIN).text == ""
  {
  }

  /** After a compilation, `errors` is the converted error list exactly when it
      failed, and empty when it succeeded. */
  lemma ErrorsAfterCompile(w: World, clock: Instant, compiler: WorldView -> Warned, ranges: RangeMap)
    requires Resolvable(compiler(View(w.(now := Some(clock)))), ranges)
    ensures var out := compiler(View(w.(now := Some(clock))));
      Errors(Compile(w, clock, compiler, ranges)) == (if out.output.Failure? then ConvertAll(out.output.error, ranges) else [])
  {
  }

  /** A compilation forgets the previous one: compiling twice is compiling
      once with the second clock. Neither the output nor the warnings accumulate. */
  lemma CompileReplaces(w: World, c1: Instant, c2: Instant, compiler: WorldView -> Warned, ranges: RangeMap)
    requires forall v: WorldView :: Resolvable(compiler(v), ranges)
    ensures Compile(Compile(w, c1, compiler, ranges), c2, compiler, ranges) == Compile(w, c2, compiler, ranges)
  {
    var once := Compile(w, c1, compiler, ranges);
    assert View(once.(now := Some(c2))) == View(w.(now := Some(c2)));
  }

  /** After a compilation `warnings` is exactly that compilation's converted
      warning list, whether it succeeded or failed. */
  lemma WarningsAfterCompile(w: World, clock: Instant, compiler: WorldView -> Warned, ranges: RangeMap)
    requires Resolvable(compiler(View(w.(now := Some(clock)))), ranges)
    ensures Warnings(Compile(w, clock, compiler, ranges)) == ConvertAll(compiler(View(w.(now := Some(clock)))).warnings, ranges)
  {
  }

  /** The SVG is available exactly after a successful compilation. */
  lemma RenderAfterCompile(w: World, clock: Instant, compiler: WorldView -> Warned, ranges: RangeMap, svg: Page -> string)
    requires Resolvable(compiler(View(w.(now := Some(clock)))), ranges)
    requires compiler(View(w.(now := Some(clock)))).output.Success? ==>
      |compiler(View(w.(now := Some(clock)))).output.value.pages| > 0
    ensures var out := compiler(View(w.(now := Some(clock))));
      RenderSvg(Compile(w, clock, compiler, ranges), svg) ==
        (if out.output.Success? then Some(svg(out.output.value.pages[0])) else None)
  {
  }

  /** After a failed compilation the autocompleter is still asked, with the
      world as compiled and without a document; its answer decides the result. */
  lemma AutocompleteAfterFailure(w: World, clock: Instant, compiler: WorldView -> Warned, ranges: RangeMap,
                                 cursor: u32, explicit: bool, ide: Autocompleter)
    requires Resolvable(compiler(View(w.(now := Some(clock)))), ranges)
    requires compiler(View(w.(now := Some(clock)))).output.Failure?
    ensures var answer := ide(View(w.(now := Some(clock))), None, Source(MAIN, w.source), cursor, explicit);
      Autocomplete(Compile(w, clock, compiler, ranges), cursor, explicit, ide) ==
        if answer.Some? then Some(AutocompleteFrom(answer.value.position, MapCompletions(answer.value.completions)))
        else None
  {
    var r := Compile(w, clock, compiler, ranges);
    assert View(r) == View(w.(now := Some(clock)));
  }

  /** After a successful compilation the autocompleter is asked with the world
      as compiled and the compiled document; its answer decides the result. */
  lemma AutocompleteAfterSuccess(w: World, clock: Instant, compiler: WorldView -> Warned, ranges: RangeMap,
                                 cursor: u32, explicit: bool, ide: Autocompleter)
    requires Resolvable(compiler(View(w.(now := Some(clock)))), ranges)
    requires compiler(View(w.(now := Some(clock)))).output.Success?
    ensures var doc := compiler(View(w.(now := Some(clock)))).output.value;
      var answer := ide(View(w.(now := Some(clock))), Some(doc), Source(MAIN, w.source), cursor, explicit);
      Autocomplete(Compile(w, clock, compiler, ranges), cursor, explicit, ide) ==
        if answer.Some? then Some(AutocompleteFrom(answer.value.position, MapCompletions(answer.value.completions)))
        else None
  {
    var r := Compile(w, clock, compiler, ranges);
    assert View(r) == View(w.(now := Some(clock)));
  }

  /** An autocompleter that, like font-name completion, answers from the
      world's fonts: the first loaded family, or nothing without fonts. */
  function FontNameIde(v: WorldView, doc: Option<Document>, source: Source, cursor: nat, explicit: bool): Option<IdeAnswer> {
    if |v.fonts| == 0 then None
    else Some(IdeAnswer(cursor, [TypstCompletion(TypstCompletionKind.Font, v.fonts[0].info.family, None, None)]))
  }

  /** `add_font` reaches the autocompleter: after a compilation of a world
      without fonts, adding one turns no completions into a font completion. */
  lemma AutocompleteSeesFonts(w: World, data: seq<bv8>, parse: seq<bv8> -> Option<Font>, cursor: u32, explicit: bool)
    requires w.output.Some? && |w.fonts| == 0
    requires parse(data).Some? && BookInSync(w)
    ensures Autocomplete(w, cursor, explicit, FontNameIde).None?
    ensures Autocomplete(AddFont(w, data, parse), cursor, explicit, FontNameIde).Some?
  {
  }

  /** `font(i)` after `add_font` is the new font at the old count, the old
      fonts below it, and nothing above. */
  lemma FontAfterAdd(w: World, data: seq<bv8>, parse: seq<bv8> -> Option<Font>, index: nat)
    requires parse(data).Some? && BookInSync(w)
    ensures FontAt(AddFont(w, data, parse), index) ==
      if index < |w.fonts| then FontAt(w, index)
      else if index == |w.fonts| then parse(data)
      else None
  {
    var r := AddFont(w, data, parse);
    if index < |w.fonts| {
      assert r.fonts[index] == r.fonts[..|w.fonts|][index];
    }
  }

  /** Adding fonts one after another numbers them in order. */
  lemma {:induction false} FontsInOrder(w: World, data: seq<seq<bv8>>, parse: seq<bv8> -> Option<Font>)
    requires BookInSync(w)
    requires forall i :: 0 <= i < |data| ==> parse(data[i]).Some?
    ensures var r := AddFonts(w, data, parse);
      && |r.fonts| == |w.fonts| + |data|
      && (forall i :: 0 <= i < |w.fonts| ==> FontAt(r, i) == FontAt(w, i))
      && (forall i :: 0 <= i < |data| ==> FontAt(r, |w.fonts| + i) == parse(data[i]))
    decreases |data|
  {
    if |data| > 0 {
      var w1 := AddFont(w, data[0], parse);
      FontsInOrder(w1, data[1..], parse);
      var r := AddFonts(w, data, parse);
      forall i | 0 <= i < |w.fonts|
        ensures FontAt(r, i) == FontAt(w, i)
      {
        FontAfterAdd(w, data[0], parse, i);
      }
      forall i | 0 <= i < |data|
        ensures FontAt(r, |w.fonts| + i) == parse(data[i])
      {
        if i == 0 {
          FontAfterAdd(w, data[0], parse, |w.fonts|);
        } else {
          assert data[1..][i - 1] == data[i];
        }
      }
    }
  }

  /** `add_font` applied to each of `data` in turn. */
  function AddFonts(w: World, data: seq<seq<bv8>>, parse: seq<bv8> -> Option<Font>): (r: World)
    requires BookInSync(w)
    requires forall i :: 0 <= i < |data| ==> parse(data[i]).Some?
    ensures BookInSync(r)
    decreases |data|
  {
    if |data| == 0 then w else AddFonts(AddFont(w, data[0], parse), data[1..], parse)
  }

  /** With a clock set, an explicit offset gives a date exactly for the whole
      hours -23 to 23: every wider offset, whether or not it fits in `i32`,
      is rejected by one guard or another. */
  lemma TodayHours(w: World, hours: i64,
                   local: Instant -> Option<Date>, fixed: (Instant, int) -> Option<Date>)
    requires w.now.Some?
    ensures -23 <= hours <= 23 ==> Today(w, Some(hours), local, fixed) == fixed(w.now.value, hours * 3600)
    ensures (hours < -23 || 23 < hours) ==> Today(w, Some(hours), local, fixed).None?
  {
  }

  /** After a compilation `today(None)` is the host's date at the compilation's clock. */
  lemma TodayAfterCompile(w: World, clock: Instant, compiler: WorldView -> Warned, ranges: RangeMap,
                          local: Instant -> Option<Date>, fixed: (Instant, int) -> Option<Date>)
    requires Resolvable(compiler(View(w.(now := Some(clock)))), ranges)
    ensures Today(Compile(w, clock, compiler, ranges), None, local, fixed) == local(clock)
  {
  }

  /** The largest offsets the `i32` guard (`try_from` and `checked_mul(3600)`)
      lets through are 596523 hours either way: one more overflows `i32`
      seconds. `east_opt` then narrows them further, see `TodayHours`. */
  lemma OffsetBounds()
    ensures OffsetSeconds(596523) == Some(2147482800)
    ensures OffsetSeconds(-596523) == Some(-2147482800)
    ensures OffsetSeconds(596524).None? && OffsetSeconds(-596524).None?
    ensures OffsetSeconds(0x8000_0000).None?
  {
  }
}
