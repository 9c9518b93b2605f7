/** generateJSONOutput and generatePreview. The JSON printer is not
    modelled: a JSON output is the document with the keys it holds and the
    indentation it is printed with. */
module StyleExport {
  import opened Types
  import opened Strings
  import CssExport
  import ScssExport
  import TailwindExport

  /** The object handed to JSON.stringify: metadata always, the other two
      keys only when they were assigned. */
  datatype JsonDoc = JsonDoc(
    metadata: Metadata,
    tokens: Option<StyleSet>,
    components: Option<seq<ComponentSpec>>)

  /** What the preview shows: plain text, a JSON document printed with an
      indentation, or `module.exports = ` followed by a printed config. */
  datatype Output =
    | PlainText(text: string)
    | JsonText(doc: JsonDoc, indent: nat)
    | TailwindModule(config: TailwindExport.TailwindConfig)

  /** The keys of the document in the order they were assigned. */
  function Keys(doc: JsonDoc): (keys: seq<string>)
    ensures |keys| >= 1 && keys[0] == "metadata"
  {
    ["metadata"] + (if doc.tokens.Some? then ["tokens"] else []) + (if doc.components.Some? then ["components"] else [])
  }

  // ---------------------------------------------------------------------
  // generateJSONOutput
  // ---------------------------------------------------------------------

  method GenerateJson(styles: ExtractedStyles, format: ExportFormat) returns (out: Output)
    ensures out.JsonText?
    ensures out.doc.metadata == styles.metadata
    ensures out.doc.tokens == if format.includeTokens then Some(styles.tokens) else None
    ensures out.doc.components == if format.includeComponents then Some(styles.components) else None
    ensures out.indent == if format.minifyOutput then 0 else 2
  {
    var doc := JsonDoc(styles.metadata, None, None);
    if format.includeTokens {
      doc := doc.(tokens := Some(styles.tokens));
    }
    if format.includeComponents {
      doc := doc.(components := Some(styles.components));
    }
    out := JsonText(doc, if format.minifyOutput then 0 else 2);
  }

  /** The document as generateJSONOutput assigns it. */
  function JsonDocOf(styles: ExtractedStyles, format: ExportFormat): JsonDoc
  {
    JsonDoc(styles.metadata,
      if format.includeTokens then Some(styles.tokens) else None,
      if format.includeComponents then Some(styles.components) else None)
  }

  /** "metadata" is always a key; "tokens" is one exactly when tokens are
      included and "components" exactly when components are. */
  lemma JsonKeys(styles: ExtractedStyles, format: ExportFormat)
    ensures var keys := Keys(JsonDocOf(styles, format));
      && "metadata" in keys
      && ("tokens" in keys <==> format.includeTokens)
      && ("components" in keys <==> format.includeComponents)
      && |keys| == 1 + (if format.includeTokens then 1 else 0) + (if format.includeComponents then 1 else 0)
  {
    var keys := Keys(JsonDocOf(styles, format));
    if !format.includeTokens {
      assert forall i :: 0 <= i < |keys| ==> keys[i] != "tokens";
    }
    if !format.includeComponents {
      assert forall i :: 0 <= i < |keys| ==> keys[i] != "components";
    }
  }

  // ---------------------------------------------------------------------
  // generatePreview
  // ---------------------------------------------------------------------

  /** JSON.stringify(JSON.parse(output)): the same document, printed
      without indentation. */
  function Reserialize(out: Output): Output
  {
    match out
    case JsonText(doc, _) => JsonText(doc, 0)
    case _ => out
  }

  /** The output of the generator the format selects. */
  function Generated(s: ExtractedStyles, format: ExportFormat): Output
  {
    match format.format
    case Json => JsonText(JsonDocOf(s, format), if format.minifyOutput then 0 else 2)
    case Css => PlainText(Lines(CssExport.CssLines(s, format)))
    case Scss => PlainText(Lines(ScssExport.ScssLines(s, format)))
    case Tailwind => TailwindModule(TailwindExport.ConfigOf(s, format))
  }

  /** The preview, as a function of the styles (absent before an
      extraction) and the options. Re-serialising minified JSON changes
      nothing, since it was already printed with indentation 0: the preview
      is exactly the selected generator's output. */
  function PreviewOf(styles: Option<ExtractedStyles>, format: ExportFormat): (r: Output)
    ensures styles.None? ==> r == PlainText("")
    ensures styles.Some? ==> r == Generated(styles.value, format)
  {
    if styles.None? then PlainText("")
    else if format.minifyOutput && format.format == Json then Reserialize(Generated(styles.value, format))
    else Generated(styles.value, format)
  }

  method GeneratePreview(styles: Option<ExtractedStyles>, format: ExportFormat) returns (output: Output)
    ensures output == PreviewOf(styles, format)
    ensures styles.None? ==> output == PlainText("")
  {
    if styles.None? {
      return PlainText("");
    }
    var s := styles.value;
    match format.format {
      case Json =>
        output := GenerateJson(s, format);
      case Css =>
        var css := CssExport.GenerateCss(s, format);
        output := PlainText(css);
      case Scss =>
        var scss := ScssExport.GenerateScss(s, format);
        output := PlainText(scss);
      case Tailwind =>
        var config := TailwindExport.GenerateTailwind(s, format);
        output := TailwindModule(config);
    }
    if format.minifyOutput && format.format == Json {
      output := Reserialize(output);
    }
  }

  /** Minifying changes only JSON output, and there only the indentation,
      which becomes 0. */
  lemma MinifyOnlyJson(styles: ExtractedStyles, format: ExportFormat)
    ensures format.format != Json ==>
      PreviewOf(Some(styles), format.(minifyOutput := true)) == PreviewOf(Some(styles), format.(minifyOutput := false))
    ensures format.format == Json ==>
      PreviewOf(Some(styles), format.(minifyOutput := true)) == JsonText(JsonDocOf(styles, format), 0)
      && PreviewOf(Some(styles), format.(minifyOutput := false)) == JsonText(JsonDocOf(styles, format), 2)
  {
    var on, off := format.(minifyOutput := true), format.(minifyOutput := false);
    match format.format {
      case Json =>
        assert JsonDocOf(styles, on) == JsonDocOf(styles, format) == JsonDocOf(styles, off);
      case Css =>
        assert CssExport.CssLines(styles, on) == CssExport.CssLines(styles, off);
      case Scss =>
        assert ScssExport.ScssLines(styles, on) == ScssExport.ScssLines(styles, off);
      case Tailwind =>
        assert TailwindExport.ConfigOf(styles, on) == TailwindExport.ConfigOf(styles, off);
    }
  }

  /** With neither tokens nor components, the CSS and SCSS previews are
      empty text. */
  lemma EmptyStylesheets(styles: ExtractedStyles, format: ExportFormat)
    requires !format.includeTokens && !format.includeComponents
    requires format.format == Css || format.format == Scss
    ensures PreviewOf(Some(styles), format) == PlainText("")
  {
    assert CssExport.CssLines(styles, format) == [];
    assert ScssExport.ScssLines(styles, format) == [];
  }
}
