/** Completion marshalling (wasm/src/web_structs_ide.rs): the engine's
    completions turned into the plain structs handed to JavaScript. */
module IdeStructs {

  import opened Wrappers
  import opened Ints

  /** `typst_ide::CompletionKind`, the engine's ten kinds. */
  datatype TypstCompletionKind =
    | Syntax | Func | Type | Param | Constant | Path | Package | Label | Font
    | Symbol(symbol: char)

  /** `typst_ide::Completion`, reduced to the fields that are copied. */
  datatype TypstCompletion = TypstCompletion(
    kind: TypstCompletionKind, labelText: string, apply: Option<string>, detail: Option<string>)

  /** `CompletionType`, the JavaScript string enum. */
  datatype CompletionType =
    | SyntaxType | FuncType | TypeType | ParamType | ConstantType
    | PathType | PackageType | LabelType | FontType | SymbolType

  /** `CompletionKind`: the type, plus the symbol's character for symbols. */
  datatype CompletionKind = CompletionKind(kind: CompletionType, data: Option<char>)

  /** `Completion`; `labelText` is the `label` field. */
  datatype Completion = Completion(kind: CompletionKind, labelText: string, apply: Option<string>, detail: Option<string>)

  datatype Autocomplete = Autocomplete(position: u32, completions: seq<Completion>)

  /** The string each `CompletionType` variant carries across the boundary. */
  function TypeName(t: CompletionType): string {
    match t
    case SyntaxType => "Syntax"
    case FuncType => "Func"
    case TypeType => "Type"
    case ParamType => "Param"
    case ConstantType => "Constant"
    case PathType => "Path"
    case PackageType => "Package"
    case LabelType => "Label"
    case FontType => "Font"
    case SymbolType => "Symbol"
  }

  /** The engine kind's own variant name. */
  function KindName(k: TypstCompletionKind): string {
    match k
    case Syntax => "Syntax"
    case Func => "Func"
    case Type => "Type"
    case Param => "Param"
    case Constant => "Constant"
    case Path => "Path"
    case Package => "Package"
    case Label => "Label"
    case Font => "Font"
    case Symbol(_) => "Symbol"
  }

  /** The `match` of `Completion::from_typst_completion`. */
  function KindOf(k: TypstCompletionKind): (r: CompletionKind)
    ensures TypeName(r.kind) == KindName(k)
    ensures r.data.Some? <==> k.Symbol?
    ensures k.Symbol? ==> r.data == Some(k.symbol)
  {
    match k
    case Syntax => CompletionKind(SyntaxType, None)
    case Func => CompletionKind(FuncType, None)
    case Type => CompletionKind(TypeType, None)
    case Param => CompletionKind(ParamType, None)
    case Constant => CompletionKind(ConstantType, None)
    case Path => CompletionKind(PathType, None)
    case Package => CompletionKind(PackageType, None)
    case Label => CompletionKind(LabelType, None)
    case Font => CompletionKind(FontType, None)
    case Symbol(c) => CompletionKind(SymbolType, Some(c))
  }

  /** Reading a JavaScript `CompletionKind` back as the engine's kind; `None`
      for the pairs the mapping never produces. */
  function KindBack(k: CompletionKind): Option<TypstCompletionKind> {
    match (k.kind, k.data)
    case (SyntaxType, None) => Some(Syntax)
    case (FuncType, None) => Some(Func)
    case (TypeType, None) => Some(Type)
    case (ParamType, None) => Some(Param)
    case (ConstantType, None) => Some(Constant)
    case (PathType, None) => Some(Path)
    case (PackageType, None) => Some(Package)
    case (LabelType, None) => Some(Label)
    case (FontType, None) => Some(Font)
    case (SymbolType, Some(c)) => Some(Symbol(c))
    case _ => None
  }

  /** Distinct types have distinct names. */
  lemma TypeNameInjective(a: CompletionType, b: CompletionType)
    ensures TypeName(a) == TypeName(b) ==> a == b
  {
  }

  /** The mapping loses nothing: reading the result back gives the input. */
  lemma KindRoundTrip(k: TypstCompletionKind)
    ensures KindBack(KindOf(k)) == Some(k)
  {
  }

  /** Every kind the mapping can produce is produced by exactly the kind it reads back as. */
  lemma KindBackRoundTrip(k: CompletionKind)
    requires KindBack(k).Some?
    ensures KindOf(KindBack(k).value) == k
  {
  }

  /** No two engine kinds share a JavaScript kind. */
  lemma KindOfInjective(a: TypstCompletionKind, b: TypstCompletionKind)
    ensures KindOf(a) == KindOf(b) ==> a == b
  {
    KindRoundTrip(a);
    KindRoundTrip(b);
  }

  /** `Completion::from_typst_completion`: kind through the mapping, the three
      strings copied, presence of `apply` and `detail` kept. */
  function FromTypstCompletion(c: TypstCompletion): (r: Completion)
    ensures r.kind.data.Some? <==> c.kind.Symbol?
    ensures TypeName(r.kind.kind) == KindName(c.kind)
    ensures r.labelText == c.labelText
    ensures r.apply.Some? <==> c.apply.Some?
    ensures r.detail.Some? <==> c.detail.Some?
  {
    Completion(KindOf(c.kind), c.labelText, c.apply, c.detail)
  }

  /** The inverse of `FromTypstCompletion`. */
  function CompletionBack(c: Completion): Option<TypstCompletion> {
    match KindBack(c.kind)
    case None => None
    case Some(k) => Some(TypstCompletion(k, c.labelText, c.apply, c.detail))
  }

  lemma CompletionRoundTrip(c: TypstCompletion)
    ensures CompletionBack(FromTypstCompletion(c)) == Some(c)
  {
    KindRoundTrip(c.kind);
  }

  /** The element-wise mapping `autocomplete` applies to the engine's list. */
  function MapCompletions(cs: seq<TypstCompletion>): (r: seq<Completion>)
    ensures |r| == |cs|
    ensures forall i :: 0 <= i < |cs| ==> r[i] == FromTypstCompletion(cs[i])
  {
    if |cs| == 0 then [] else [FromTypstCompletion(cs[0])] + MapCompletions(cs[1..])
  }

  /** Reading every mapped completion back gives the engine's list. */
  function CompletionsBack(cs: seq<Completion>): Option<seq<TypstCompletion>> {
    if |cs| == 0 then Some([])
    else match (CompletionBack(cs[0]), CompletionsBack(cs[1..]))
      case (Some(c), Some(rest)) => Some([c] + rest)
      case _ => None
  }

  lemma {:induction false} MapCompletionsRoundTrip(cs: seq<TypstCompletion>)
    ensures CompletionsBack(MapCompletions(cs)) == Some(cs)
  {
    if |cs| > 0 {
      CompletionRoundTrip(cs[0]);
      MapCompletionsRoundTrip(cs[1..]);
      assert MapCompletions(cs)[1..] == MapCompletions(cs[1..]);
      assert [cs[0]] + cs[1..] == cs;
    }
  }

  /** `Autocomplete::from_typst_completion`: the offset cast to `u32`, the list
      passed through. */
  function AutocompleteFrom(position: nat, completions: seq<Completion>): (r: Autocomplete)
    ensures r.completions == completions
    ensures (r.position - position) % TWO_TO_THE_32 == 0
    ensures position < TWO_TO_THE_32 ==> r.position == position
  {
    Autocomplete(AsU32(position), completions)
  }
}
