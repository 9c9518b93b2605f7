/** generateCSSOutput: a `:root` block of custom properties for the tokens
    and one rule per detected component. The text is a sequence of lines,
    each followed by a newline; CssLines is that sequence and GenerateCss
    builds the text by appending, as the exporter does. */
module CssExport {
  import opened Types
  import opened Strings
  import opened Slugs
  import opened ExportLines

  // ---------------------------------------------------------------------
  // The lines of the CSS output
  // ---------------------------------------------------------------------

  function ColorVar(c: ColorToken): string
  {
    "  --color-" + Slug(c.name) + ": " + c.hex + ";"
  }

  function ColorVarLines(c: ColorToken): seq<string>
  {
    [ColorVar(c)]
  }

  function FontVar(t: TypographyToken, facet: string, value: string): string
  {
    "  --font-" + Slug(t.name) + "-" + facet + ": " + value + ";"
  }

  /** Family, size in px and weight, for one typography token. */
  function FontVars(t: TypographyToken): (ls: seq<string>)
    ensures |ls| == 3
  {
    [FontVar(t, "family", t.fontFamily), FontVar(t, "size", PxText(t.fontSize)),
     FontVar(t, "weight", IntToString(t.fontWeight))]
  }

  /** The value is written immediately followed by its unit. */
  function SpacingVar(s: SpacingToken): string
  {
    "  --spacing-" + SpacingDecl(s)
  }

  function SpacingVarLines(s: SpacingToken): seq<string>
  {
    [SpacingVar(s)]
  }

  /** Colours, then typography, then spacing; borders and shadows are not read. */
  function RootBlock(t: StyleSet): seq<string>
  {
    [":root {"] + FlatMap(t.colors, ColorVarLines) + FlatMap(t.typography, FontVars)
      + FlatMap(t.spacing, SpacingVarLines) + Close
  }

  /** The background line, present only when the component has a colour,
      and holding the first colour's hex. */
  function CssBackground(c: ComponentSpec): (ls: seq<string>)
    ensures |ls| <= 1
  {
    if |c.styles.colors| > 0 then [BackgroundDecl(c.styles.colors[0].hex)] else []
  }

  function CssRule(c: ComponentSpec): seq<string>
  {
    Rule(c, CssBackground(c))
  }

  /** The lines of the CSS text: the `:root` block when tokens are
      included, then one rule per component when components are. */
  function CssLines(styles: ExtractedStyles, format: ExportFormat): seq<string>
  {
    (if format.includeTokens then RootBlock(styles.tokens) else [])
      + (if format.includeComponents then FlatMap(styles.components, CssRule) else [])
  }

  // ---------------------------------------------------------------------
  // generateCSSOutput, appending as it goes
  // ---------------------------------------------------------------------

  /** The `:root` block: the opening line, one custom property per colour,
      three per typography token, one per spacing token, then '}\n\n'. */
  method EmitRoot(text: string, ghost lines: seq<string>, tokens: StyleSet) returns (css: string)
    requires text == Lines(lines)
    ensures css == Lines(lines + RootBlock(tokens))
  {
    ghost var open := lines + [":root {"];
    ghost var colors := open + FlatMap(tokens.colors, ColorVarLines);
    ghost var fonts := colors + FlatMap(tokens.typography, FontVars);
    ghost var spacing := fonts + FlatMap(tokens.spacing, SpacingVarLines);
    css := Emit(text, lines, [":root {"]);
    css := EmitEach(css, open, tokens.colors, ColorVarLines);
    css := EmitEach(css, colors, tokens.typography, FontVars);
    css := EmitEach(css, fonts, tokens.spacing, SpacingVarLines);
    css := Emit(css, spacing, Close);
    RootAssoc(lines, tokens);
  }

  lemma RootAssoc(lines: seq<string>, t: StyleSet)
    ensures lines + [":root {"] + FlatMap(t.colors, ColorVarLines) + FlatMap(t.typography, FontVars)
      + FlatMap(t.spacing, SpacingVarLines) + Close == lines + RootBlock(t)
  {
    var a, b, c := FlatMap(t.colors, ColorVarLines), FlatMap(t.typography, FontVars), FlatMap(t.spacing, SpacingVarLines);
    AppendAssoc(lines, [":root {"] + a + b + c, Close);
    AppendAssoc(lines, [":root {"] + a + b, c);
    AppendAssoc(lines, [":root {"] + a, b);
    AppendAssoc(lines, [":root {"], a);
  }

  /** One rule per component, in list order. */
  method EmitRules(text: string, ghost lines: seq<string>, components: seq<ComponentSpec>) returns (css: string)
    requires text == Lines(lines)
    ensures css == Lines(lines + FlatMap(components, CssRule))
  {
    css := text;
    var i := 0;
    assert lines + FlatMap(components[..i], CssRule) == lines;
    while i < |components|
      invariant 0 <= i <= |components|
      invariant css == Lines(lines + FlatMap(components[..i], CssRule))
    {
      ghost var done := lines + FlatMap(components[..i], CssRule);
      FlatMapSnoc(components, i, CssRule);
      AppendAssoc(lines, FlatMap(components[..i], CssRule), CssRule(components[i]));
      var c := components[i];
      css := EmitRule(css, done, c, |c.styles.colors| > 0, CssBackground(c));
      assert css == Lines(lines + FlatMap(components[..i + 1], CssRule));
      i := i + 1;
      assert css == Lines(lines + FlatMap(components[..i], CssRule));
    }
    assert components[..i] == components;
  }

  method GenerateCss(styles: ExtractedStyles, format: ExportFormat) returns (css: string)
    ensures css == Lines(CssLines(styles, format))
    ensures !format.includeTokens && !format.includeComponents ==> css == ""
  {
    ghost var tokenLines := if format.includeTokens then RootBlock(styles.tokens) else [];
    ghost var ruleLines := if format.includeComponents then FlatMap(styles.components, CssRule) else [];
    assert CssLines(styles, format) == tokenLines + ruleLines;
    css := "";
    if format.includeTokens {
      assert [] + RootBlock(styles.tokens) == tokenLines;
      css := EmitRoot(css, [], styles.tokens);
    }
    assert css == Lines(tokenLines);
    if format.includeComponents {
      css := EmitRules(css, tokenLines, styles.components);
    } else {
      assert tokenLines + ruleLines == tokenLines;
    }
  }


  // ---------------------------------------------------------------------
  // What the output holds, kind by kind
  // ---------------------------------------------------------------------

  /** The lines before the rules: the `:root` block, when tokens are included. */
  function CssTokenLines(styles: ExtractedStyles, format: ExportFormat): seq<string>
  {
    if format.includeTokens then RootBlock(styles.tokens) else []
  }

  /** With components, the rule of component i opens, after the token
      lines and the rules before it, with its selector, width, height and
      padding lines. */
  lemma CssLinesSplit(styles: ExtractedStyles, format: ExportFormat)
    requires format.includeComponents
    ensures CssLines(styles, format) == CssTokenLines(styles, format) + FlatMap(styles.components, CssRule)
  { }

  lemma CssRuleOpens(c: ComponentSpec)
    ensures SliceIs(CssRule(c), 0, OpeningLines(c))
  {
    RuleOpens(c, CssBackground(c));
  }

  lemma CssRuleBoxes(styles: ExtractedStyles, format: ExportFormat, i: nat)
    requires format.includeComponents && i < |styles.components|
    ensures SliceIs(CssLines(styles, format),
      |CssTokenLines(styles, format)| + |FlatMap(styles.components[..i], CssRule)|, OpeningLines(styles.components[i]))
  {
    CssLinesSplit(styles, format);
    CssRuleOpens(styles.components[i]);
    FlatMapSliceIs(CssLines(styles, format), CssTokenLines(styles, format), styles.components, CssRule, i,
      |CssTokenLines(styles, format)| + |FlatMap(styles.components[..i], CssRule)|, OpeningLines(styles.components[i]));
  }



  lemma ColorVarKind(c: ColorToken)
    ensures AllOfKind(ColorVarLines(c), ColorVarLine)
  {
    var l := ColorVar(c);
    assert l[0] == ' ' && l[4] == 'c';
  }

  lemma FontVarKind(t: TypographyToken, facet: string, value: string)
    ensures KindOf(FontVar(t, facet, value)) == FontVarLine
  {
    assert FontVar(t, facet, value)[0] == ' ' && FontVar(t, facet, value)[4] == 'f';
  }

  lemma FontVarsKind(t: TypographyToken)
    ensures AllOfKind(FontVars(t), FontVarLine)
  {
    FontVarKind(t, "family", t.fontFamily);
    FontVarKind(t, "size", PxText(t.fontSize));
    FontVarKind(t, "weight", IntToString(t.fontWeight));
  }

  lemma SpacingPrefixKind(rest: string)
    ensures KindOf("  --spacing-" + rest) == SpacingVarLine
  {
    var l := "  --spacing-" + rest;
    assert l[0] == ' ' && l[4] == 's';
    StartsWithAppend("  --spacing-", rest);
  }

  lemma SpacingVarKind(s: SpacingToken)
    ensures AllOfKind(SpacingVarLines(s), SpacingVarLine)
  {
    SpacingPrefixKind(SpacingDecl(s));
  }

  lemma CssBackgroundKind(c: ComponentSpec)
    ensures AllOfKind(CssBackground(c), BackgroundLine)
  {
    if |c.styles.colors| > 0 {
      BackgroundKind(c.styles.colors[0].hex);
    }
  }

  /** Under a filter that drops the closing lines, the :root block gives
      what its opening line and its three sections give. */
  lemma RootFilter(t: StyleSet, p: string -> bool)
    requires !p("}") && !p("")
    ensures Filter(RootBlock(t), p)
      == Filter([":root {"], p) + Filter(FlatMap(t.colors, ColorVarLines), p)
       + Filter(FlatMap(t.typography, FontVars), p) + Filter(FlatMap(t.spacing, SpacingVarLines), p)
  {
    var a, b, c := FlatMap(t.colors, ColorVarLines), FlatMap(t.typography, FontVars), FlatMap(t.spacing, SpacingVarLines);
    FilterNone(Close, p);
    FilterDroppingLast([":root {"], a, b, c, Close, p);
  }

  lemma ColorSection(colors: seq<ColorToken>, k: LineKind)
    ensures Filter(FlatMap(colors, ColorVarLines), Kind(k)) == if k == ColorVarLine then FlatMap(colors, ColorVarLines) else []
  {
    forall i | 0 <= i < |colors| ensures Uniform(ColorVarLines(colors[i]), Kind(k), k == ColorVarLine) {
      ColorVarKind(colors[i]);
      KindUniform(ColorVarLines(colors[i]), ColorVarLine, k);
    }
    FilterSection(colors, ColorVarLines, Kind(k), k == ColorVarLine);
  }

  lemma FontSection(typography: seq<TypographyToken>, k: LineKind)
    ensures Filter(FlatMap(typography, FontVars), Kind(k)) == if k == FontVarLine then FlatMap(typography, FontVars) else []
  {
    forall i | 0 <= i < |typography| ensures Uniform(FontVars(typography[i]), Kind(k), k == FontVarLine) {
      FontVarsKind(typography[i]);
      KindUniform(FontVars(typography[i]), FontVarLine, k);
    }
    FilterSection(typography, FontVars, Kind(k), k == FontVarLine);
  }

  lemma SpacingSection(spacing: seq<SpacingToken>, k: LineKind)
    ensures Filter(FlatMap(spacing, SpacingVarLines), Kind(k)) == if k == SpacingVarLine then FlatMap(spacing, SpacingVarLines) else []
  {
    forall i | 0 <= i < |spacing| ensures Uniform(SpacingVarLines(spacing[i]), Kind(k), k == SpacingVarLine) {
      SpacingVarKind(spacing[i]);
      KindUniform(SpacingVarLines(spacing[i]), SpacingVarLine, k);
    }
    FilterSection(spacing, SpacingVarLines, Kind(k), k == SpacingVarLine);
  }

  lemma CssRuleOfKind(c: ComponentSpec, k: LineKind)
    requires k != OtherLine
    ensures Filter(CssRule(c), Kind(k))
      == if k == RuleHeadLine then [RuleHead(c)] else if k == BackgroundLine then CssBackground(c) else []
  {
    CssBackgroundKind(c);
    RuleOfKind(c, CssBackground(c), k);
  }

  /** The output's lines of kind k are those of the :root block when tokens
      are included, followed by those of the rules when components are. */
  lemma CssFilter(styles: ExtractedStyles, format: ExportFormat, k: LineKind)
    ensures Filter(CssLines(styles, format), Kind(k))
      == (if format.includeTokens then Filter(RootBlock(styles.tokens), Kind(k)) else [])
       + (if format.includeComponents then Filter(FlatMap(styles.components, CssRule), Kind(k)) else [])
  {
    var a := if format.includeTokens then RootBlock(styles.tokens) else [];
    var b := if format.includeComponents then FlatMap(styles.components, CssRule) else [];
    FilterAppend(a, b, Kind(k));
  }

  /** A token line kind k appears only in the :root block, and there in
      the order of its section. */
  lemma TokenKindOnly(styles: ExtractedStyles, format: ExportFormat, k: LineKind)
    requires k in {RootOpen, ColorVarLine, FontVarLine, SpacingVarLine}
    ensures Filter(CssLines(styles, format), Kind(k))
      == if format.includeTokens then Filter(RootBlock(styles.tokens), Kind(k)) else []
  {
    CssFilter(styles, format, k);
    if format.includeComponents {
      forall i | 0 <= i < |styles.components| ensures Filter(CssRule(styles.components[i]), Kind(k)) == [] {
        CssRuleOfKind(styles.components[i], k);
      }
      FilterFlatMapNone(styles.components, CssRule, Kind(k));
    }
  }

  /** A rule line kind appears only in the rules. */
  lemma RuleKindOnly(styles: ExtractedStyles, format: ExportFormat, k: LineKind)
    requires k in {RuleHeadLine, BackgroundLine}
    ensures Filter(CssLines(styles, format), Kind(k))
      == if format.includeComponents then Filter(FlatMap(styles.components, CssRule), Kind(k)) else []
  {
    CssFilter(styles, format, k);
    if format.includeTokens {
      RootHasNoRuleLines(styles.tokens, k);
    }
  }

  lemma RootHasNoRuleLines(t: StyleSet, k: LineKind)
    requires k in {RuleHeadLine, BackgroundLine}
    ensures Filter(RootBlock(t), Kind(k)) == []
  {
    var p := Kind(k);
    assert Filter(RootBlock(t), p)
      == Filter([":root {"], p) + Filter(FlatMap(t.colors, ColorVarLines), p)
       + Filter(FlatMap(t.typography, FontVars), p) + Filter(FlatMap(t.spacing, SpacingVarLines), p) by {
      CloseKind();
      RootFilter(t, p);
    }
    assert Filter([":root {"], p) == [] by {
      assert KindOf(":root {") == RootOpen;
      FilterOne(":root {", p);
    }
    ColorSection(t.colors, k);
    FontSection(t.typography, k);
    SpacingSection(t.spacing, k);
  }

  /** Under the filter for a kind other than OtherLine, the :root block
      gives what its opening line and its three sections give. */
  lemma RootOfKind(t: StyleSet, k: LineKind)
    requires k != OtherLine
    ensures Filter(RootBlock(t), Kind(k))
      == Filter([":root {"], Kind(k)) + Filter(FlatMap(t.colors, ColorVarLines), Kind(k))
       + Filter(FlatMap(t.typography, FontVars), Kind(k)) + Filter(FlatMap(t.spacing, SpacingVarLines), Kind(k))
  {
    CloseKind();
    RootFilter(t, Kind(k));
  }

  lemma RootOpenLine(k: LineKind)
    ensures Filter([":root {"], Kind(k)) == if k == RootOpen then [":root {"] else []
  {
    assert KindOf(":root {") == RootOpen;
    FilterOne(":root {", Kind(k));
  }

  lemma RootOpens(t: StyleSet)
    ensures Filter(RootBlock(t), Kind(RootOpen)) == [":root {"]
  {
    var p := Kind(RootOpen);
    RootOfKind(t, RootOpen);
    assert Filter([":root {"], p) == [":root {"] by {
      RootOpenLine(RootOpen);
    }
    assert Filter(FlatMap(t.colors, ColorVarLines), p) == [] by {
      ColorSection(t.colors, RootOpen);
    }
    assert Filter(FlatMap(t.typography, FontVars), p) == [] by {
      FontSection(t.typography, RootOpen);
    }
    assert Filter(FlatMap(t.spacing, SpacingVarLines), p) == [] by {
      SpacingSection(t.spacing, RootOpen);
    }
    OnlyPart(Filter([":root {"], p), Filter(FlatMap(t.colors, ColorVarLines), p),
      Filter(FlatMap(t.typography, FontVars), p), Filter(FlatMap(t.spacing, SpacingVarLines), p));
  }

  lemma RootColors(t: StyleSet)
    ensures Filter(RootBlock(t), Kind(ColorVarLine)) == FlatMap(t.colors, ColorVarLines)
  {
    RootOfKind(t, ColorVarLine);
    RootOpenLine(ColorVarLine);
    ColorSection(t.colors, ColorVarLine);
    FontSection(t.typography, ColorVarLine);
    SpacingSection(t.spacing, ColorVarLine);
    var p := Kind(ColorVarLine);
    OnlyPart(Filter([":root {"], p), Filter(FlatMap(t.colors, ColorVarLines), p),
      Filter(FlatMap(t.typography, FontVars), p), Filter(FlatMap(t.spacing, SpacingVarLines), p));
  }

  lemma RootFonts(t: StyleSet)
    ensures Filter(RootBlock(t), Kind(FontVarLine)) == FlatMap(t.typography, FontVars)
  {
    RootOfKind(t, FontVarLine);
    RootOpenLine(FontVarLine);
    ColorSection(t.colors, FontVarLine);
    FontSection(t.typography, FontVarLine);
    SpacingSection(t.spacing, FontVarLine);
    var p := Kind(FontVarLine);
    OnlyPart(Filter([":root {"], p), Filter(FlatMap(t.colors, ColorVarLines), p),
      Filter(FlatMap(t.typography, FontVars), p), Filter(FlatMap(t.spacing, SpacingVarLines), p));
  }

  lemma RootSpacing(t: StyleSet)
    ensures Filter(RootBlock(t), Kind(SpacingVarLine)) == FlatMap(t.spacing, SpacingVarLines)
  {
    RootOfKind(t, SpacingVarLine);
    RootOpenLine(SpacingVarLine);
    ColorSection(t.colors, SpacingVarLine);
    FontSection(t.typography, SpacingVarLine);
    SpacingSection(t.spacing, SpacingVarLine);
    var p := Kind(SpacingVarLine);
    OnlyPart(Filter([":root {"], p), Filter(FlatMap(t.colors, ColorVarLines), p),
      Filter(FlatMap(t.typography, FontVars), p), Filter(FlatMap(t.spacing, SpacingVarLines), p));
  }

  /** Three font lines per typography token, token by token. */
  lemma FontBlocks(ty: seq<TypographyToken>)
    ensures |FlatMap(ty, FontVars)| == 3 * |ty|
    ensures forall i :: 0 <= i < |ty| ==> FlatMap(ty, FontVars)[3 * i..3 * i + 3] == FontVars(ty[i])
  {
    FlatMapLength(ty, FontVars, 3);
    forall i | 0 <= i < |ty| ensures FlatMap(ty, FontVars)[3 * i..3 * i + 3] == FontVars(ty[i]) {
      FlatMapBlock(ty, FontVars, 3, i);
    }
  }

  /** The output opens a :root block exactly when tokens are included. */
  lemma CssRootOpen(styles: ExtractedStyles, format: ExportFormat)
    ensures Filter(CssLines(styles, format), Kind(RootOpen)) == if format.includeTokens then [":root {"] else []
  {
    TokenKindOnly(styles, format, RootOpen);
    if format.includeTokens {
      RootOpens(styles.tokens);
    }
  }

  /** One --color- custom property per colour token, in token order, when
      tokens are included; none otherwise. */
  lemma CssColorVars(styles: ExtractedStyles, format: ExportFormat)
    ensures var ls := Filter(CssLines(styles, format), Kind(ColorVarLine));
      && (!format.includeTokens ==> ls == [])
      && (format.includeTokens ==> (|ls| == |styles.tokens.colors|
            && forall i :: 0 <= i < |ls| ==> ls[i] == ColorVar(styles.tokens.colors[i])))
  {
    TokenKindOnly(styles, format, ColorVarLine);
    if format.includeTokens {
      RootColors(styles.tokens);
      FlatMapSingletons(styles.tokens.colors, ColorVarLines, ColorVar);
    }
  }

  /** Three --font- custom properties per typography token (family, size
      in px, weight), token by token, when tokens are included. */
  lemma CssFontVars(styles: ExtractedStyles, format: ExportFormat)
    ensures var ls := Filter(CssLines(styles, format), Kind(FontVarLine));
      && (!format.includeTokens ==> ls == [])
      && (format.includeTokens ==> (|ls| == 3 * |styles.tokens.typography|
            && forall i :: 0 <= i < |styles.tokens.typography| ==>
                 ls[3 * i..3 * i + 3] == FontVars(styles.tokens.typography[i])))
  {
    TokenKindOnly(styles, format, FontVarLine);
    if format.includeTokens {
      RootFonts(styles.tokens);
      FontBlocks(styles.tokens.typography);
    }
  }

  /** One --spacing- custom property per spacing token, in token order,
      when tokens are included. */
  lemma CssSpacingVars(styles: ExtractedStyles, format: ExportFormat)
    ensures var ls := Filter(CssLines(styles, format), Kind(SpacingVarLine));
      && (!format.includeTokens ==> ls == [])
      && (format.includeTokens ==> (|ls| == |styles.tokens.spacing|
            && forall i :: 0 <= i < |ls| ==> ls[i] == SpacingVar(styles.tokens.spacing[i])))
  {
    TokenKindOnly(styles, format, SpacingVarLine);
    if format.includeTokens {
      RootSpacing(styles.tokens);
      FlatMapSingletons(styles.tokens.spacing, SpacingVarLines, SpacingVar);
    }
  }

  function RuleHeadLines(c: ComponentSpec): seq<string>
  {
    [RuleHead(c)]
  }

  /** One rule per component, in component order, when components are
      included; none otherwise. */
  lemma CssRuleHeads(styles: ExtractedStyles, format: ExportFormat)
    ensures var ls := Filter(CssLines(styles, format), Kind(RuleHeadLine));
      && (!format.includeComponents ==> ls == [])
      && (format.includeComponents ==> (|ls| == |styles.components|
            && forall i :: 0 <= i < |ls| ==> ls[i] == RuleHead(styles.components[i])))
  {
    RuleKindOnly(styles, format, RuleHeadLine);
    if format.includeComponents {
      var cs := styles.components;
      forall i | 0 <= i < |cs| ensures Filter(CssRule(cs[i]), Kind(RuleHeadLine)) == RuleHeadLines(cs[i]) {
        CssRuleOfKind(cs[i], RuleHeadLine);
      }
      FilterFlatMap(cs, CssRule, RuleHeadLines, Kind(RuleHeadLine));
      FlatMapSingletons(cs, RuleHeadLines, RuleHead);
    }
  }

  predicate HasColor(c: ComponentSpec)
  {
    |c.styles.colors| > 0
  }

  function FirstBackground(c: ComponentSpec): string
  {
    BackgroundDecl(if |c.styles.colors| > 0 then c.styles.colors[0].hex else "")
  }

  /** A background-color line for each component that has a colour, in
      order, holding that component's first colour; components without
      colours have none. */
  lemma CssBackgrounds(styles: ExtractedStyles, format: ExportFormat)
    ensures var ls := Filter(CssLines(styles, format), Kind(BackgroundLine));
      var colored := Filter(styles.components, HasColor);
      && (!format.includeComponents ==> ls == [])
      && (format.includeComponents ==> (|ls| == |colored|
            && forall i :: 0 <= i < |ls| ==> ls[i] == BackgroundDecl(colored[i].styles.colors[0].hex)))
  {
    RuleKindOnly(styles, format, BackgroundLine);
    if format.includeComponents {
      var cs := styles.components;
      forall i | 0 <= i < |cs| ensures Filter(CssRule(cs[i]), Kind(BackgroundLine)) == CssBackground(cs[i]) {
        CssRuleOfKind(cs[i], BackgroundLine);
      }
      FilterFlatMap(cs, CssRule, CssBackground, Kind(BackgroundLine));
      FlatMapOptional(cs, CssBackground, HasColor, FirstBackground);
    }
  }

  /** Borders and shadows never reach the CSS output. */
  lemma CssIgnoresBordersAndShadows(styles: ExtractedStyles, borders: seq<BorderToken>, shadows: seq<ShadowToken>, format: ExportFormat)
    ensures var t := styles.tokens;
      CssLines(styles.(tokens := t.(borders := borders, shadows := shadows)), format) == CssLines(styles, format)
  {
  }
}
