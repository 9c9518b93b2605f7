/** generateSCSSOutput: three commented token sections of Sass variables
    (colours, typography maps, spacing), then one rule per component whose
    background refers to the `$color-` variable of its first colour. */
module ScssExport {
  import opened Types
  import opened Strings
  import opened Slugs
  import opened ExportLines

  // ---------------------------------------------------------------------
  // The lines of the SCSS output
  // ---------------------------------------------------------------------

  function SassColor(c: ColorToken): string
  {
    "$color-" + Slug(c.name) + ": " + c.hex + ";"
  }

  function SassColorLines(c: ColorToken): seq<string>
  {
    [SassColor(c)]
  }

  /** The line that opens a typography token's map. */
  function FontMapOpen(t: TypographyToken): string
  {
    "$font-" + Slug(t.name) + ": ("
  }

  /** Family, size in px and weight, one entry per line, and the line
      that closes the map. */
  function FontMapEntries(t: TypographyToken): (ls: seq<string>)
    ensures |ls| == 4
  {
    [Entry("family", t.fontFamily + ","),
     Entry("size", PxText(t.fontSize) + ","),
     Entry("weight", IntToString(t.fontWeight)),
     ");"]
  }

  /** A Sass map for one typography token. */
  function FontMap(t: TypographyToken): (ls: seq<string>)
    ensures |ls| == 5
  {
    [FontMapOpen(t)] + FontMapEntries(t)
  }

  function SassSpacing(s: SpacingToken): string
  {
    "$spacing-" + SpacingDecl(s)
  }

  function SassSpacingLines(s: SpacingToken): seq<string>
  {
    [SassSpacing(s)]
  }

  /** A comment line, the body, then the empty line of the closing '\n'. */
  function Section(header: string, body: seq<string>): seq<string>
  {
    [header] + body + [""]
  }

  const ColorHeader := "// Color tokens"
  const TypographyHeader := "// Typography tokens"
  const SpacingHeader := "// Spacing tokens"

  /** Colours, then typography, then spacing; borders and shadows are not read. */
  function ScssTokens(t: StyleSet): seq<string>
  {
    Section(ColorHeader, FlatMap(t.colors, SassColorLines))
      + Section(TypographyHeader, FlatMap(t.typography, FontMap))
      + Section(SpacingHeader, FlatMap(t.spacing, SassSpacingLines))
  }

  /** The background line, present only when the component has a colour,
      and naming the variable of the first colour. */
  function ScssBackground(c: ComponentSpec): (ls: seq<string>)
    ensures |ls| <= 1
  {
    if |c.styles.colors| > 0 then [BackgroundDecl("$color-" + Slug(c.styles.colors[0].name))] else []
  }

  function ScssRule(c: ComponentSpec): seq<string>
  {
    Rule(c, ScssBackground(c))
  }

  /** The lines of the SCSS text: the three token sections when tokens
      are included, then one rule per component when components are. */
  function ScssLines(styles: ExtractedStyles, format: ExportFormat): seq<string>
  {
    (if format.includeTokens then ScssTokens(styles.tokens) else [])
      + (if format.includeComponents then FlatMap(styles.components, ScssRule) else [])
  }

  // ---------------------------------------------------------------------
  // generateSCSSOutput, appending as it goes
  // ---------------------------------------------------------------------

  /** A header line, the lines of each element of xs, then an empty line. */
  method EmitSection<T>(text: string, ghost lines: seq<string>, header: string, xs: seq<T>, f: T -> seq<string>)
    returns (out: string)
    requires text == Lines(lines)
    ensures out == Lines(lines + Section(header, FlatMap(xs, f)))
  {
    out := Emit(text, lines, [header]);
    out := EmitEach(out, lines + [header], xs, f);
    out := Emit(out, lines + [header] + FlatMap(xs, f), [""]);
    AppendAssoc(lines, [header], FlatMap(xs, f));
    AppendAssoc(lines, [header] + FlatMap(xs, f), [""]);
  }

  method EmitTokens(text: string, ghost lines: seq<string>, tokens: StyleSet) returns (scss: string)
    requires text == Lines(lines)
    ensures scss == Lines(lines + ScssTokens(tokens))
  {
    ghost var a := Section(ColorHeader, FlatMap(tokens.colors, SassColorLines));
    ghost var b := Section(TypographyHeader, FlatMap(tokens.typography, FontMap));
    ghost var c := Section(SpacingHeader, FlatMap(tokens.spacing, SassSpacingLines));
    scss := EmitSection(text, lines, ColorHeader, tokens.colors, SassColorLines);
    scss := EmitSection(scss, lines + a, TypographyHeader, tokens.typography, FontMap);
    scss := EmitSection(scss, lines + a + b, SpacingHeader, tokens.spacing, SassSpacingLines);
    AppendAssoc(lines, a, b);
    AppendAssoc(lines, a + b, c);
  }

  /** One rule per component, in list order. */
  method EmitRules(text: string, ghost lines: seq<string>, components: seq<ComponentSpec>) returns (scss: string)
    requires text == Lines(lines)
    ensures scss == Lines(lines + FlatMap(components, ScssRule))
  {
    scss := text;
    var i := 0;
    assert lines + FlatMap(components[..i], ScssRule) == lines;
    while i < |components|
      invariant 0 <= i <= |components|
      invariant scss == Lines(lines + FlatMap(components[..i], ScssRule))
    {
      ghost var done := lines + FlatMap(components[..i], ScssRule);
      FlatMapSnoc(components, i, ScssRule);
      AppendAssoc(lines, FlatMap(components[..i], ScssRule), ScssRule(components[i]));
      var c := components[i];
      scss := EmitRule(scss, done, c, |c.styles.colors| > 0, ScssBackground(c));
      assert scss == Lines(lines + FlatMap(components[..i + 1], ScssRule));
      i := i + 1;
      assert scss == Lines(lines + FlatMap(components[..i], ScssRule));
    }
    assert components[..i] == components;
  }

  method GenerateScss(styles: ExtractedStyles, format: ExportFormat) returns (scss: string)
    ensures scss == Lines(ScssLines(styles, format))
    ensures !format.includeTokens && !format.includeComponents ==> scss == ""
  {
    ghost var tokenLines := if format.includeTokens then ScssTokens(styles.tokens) else [];
    ghost var ruleLines := if format.includeComponents then FlatMap(styles.components, ScssRule) else [];
    assert ScssLines(styles, format) == tokenLines + ruleLines;
    scss := "";
    if format.includeTokens {
      assert [] + ScssTokens(styles.tokens) == tokenLines;
      scss := EmitTokens(scss, [], styles.tokens);
    }
    assert scss == Lines(tokenLines);
    if format.includeComponents {
      scss := EmitRules(scss, tokenLines, styles.components);
    } else {
      assert tokenLines + ruleLines == tokenLines;
    }
  }

  // ---------------------------------------------------------------------
  // What the output holds, kind by kind
  // ---------------------------------------------------------------------

  /** The lines before the rules: the three token sections, when tokens are included. */
  function ScssTokenLines(styles: ExtractedStyles, format: ExportFormat): seq<string>
  {
    if format.includeTokens then ScssTokens(styles.tokens) else []
  }

  /** With components, the rule of component i opens, after the token
      lines and the rules before it, with its selector, width, height and
      padding lines. */
  lemma ScssLinesSplit(styles: ExtractedStyles, format: ExportFormat)
    requires format.includeComponents
    ensures ScssLines(styles, format) == ScssTokenLines(styles, format) + FlatMap(styles.components, ScssRule)
  { }

  lemma ScssRuleOpens(c: ComponentSpec)
    ensures SliceIs(ScssRule(c), 0, OpeningLines(c))
  {
    RuleOpens(c, ScssBackground(c));
  }

  lemma ScssRuleBoxes(styles: ExtractedStyles, format: ExportFormat, i: nat)
    requires format.includeComponents && i < |styles.components|
    ensures SliceIs(ScssLines(styles, format),
      |ScssTokenLines(styles, format)| + |FlatMap(styles.components[..i], ScssRule)|, OpeningLines(styles.components[i]))
  {
    ScssLinesSplit(styles, format);
    ScssRuleOpens(styles.components[i]);
    FlatMapSliceIs(ScssLines(styles, format), ScssTokenLines(styles, format), styles.components, ScssRule, i,
      |ScssTokenLines(styles, format)| + |FlatMap(styles.components[..i], ScssRule)|, OpeningLines(styles.components[i]));
  }



  lemma SassColorKind(c: ColorToken)
    ensures AllOfKind(SassColorLines(c), SassColorLine)
  {
    var l := SassColor(c);
    assert l[0] == '$' && l[1] == 'c';
  }

  lemma SassSpacingPrefixKind(rest: string)
    ensures KindOf("$spacing-" + rest) == SassSpacingLine
  {
    var l := "$spacing-" + rest;
    assert l[0] == '$' && l[1] == 's';
    StartsWithAppend("$spacing-", rest);
  }

  lemma SassSpacingKind(s: SpacingToken)
    ensures AllOfKind(SassSpacingLines(s), SassSpacingLine)
  {
    SassSpacingPrefixKind(SpacingDecl(s));
  }

  lemma HeaderKinds()
    ensures KindOf(ColorHeader) == OtherLine && KindOf(TypographyHeader) == OtherLine
    ensures KindOf(SpacingHeader) == OtherLine && KindOf("") == OtherLine
  {
    UnindentedOther(ColorHeader);
    UnindentedOther(TypographyHeader);
    UnindentedOther(SpacingHeader);
    CloseKind();
  }

  lemma FontMapOpenKind(t: TypographyToken)
    ensures KindOf(FontMapOpen(t)) == SassFontLine
  {
    var l := FontMapOpen(t);
    assert l[0] == '$' && l[1] == 'f';
  }

  lemma FontMapEntriesKind(t: TypographyToken)
    ensures AllOfKind(FontMapEntries(t), OtherLine)
  {
    EntryKind("family", t.fontFamily + ",");
    EntryKind("size", PxText(t.fontSize) + ",");
    EntryKind("weight", IntToString(t.fontWeight));
    UnindentedOther(");");
  }

  /** Of a typography map only the opening line has a kind. */
  lemma FontMapOfKind(t: TypographyToken, k: LineKind)
    requires k != OtherLine
    ensures Filter(FontMap(t), Kind(k)) == if k == SassFontLine then [FontMapOpen(t)] else []
  {
    var p := Kind(k);
    assert Filter(FontMapEntries(t), p) == [] by {
      FontMapEntriesKind(t);
      KindUniform(FontMapEntries(t), OtherLine, k);
      FilterUniform(FontMapEntries(t), p, false);
    }
    assert Filter([FontMapOpen(t)], p) == if k == SassFontLine then [FontMapOpen(t)] else [] by {
      FontMapOpenKind(t);
      FilterOne(FontMapOpen(t), p);
    }
    FilterAppend([FontMapOpen(t)], FontMapEntries(t), p);
  }

  lemma ColorSection(colors: seq<ColorToken>, k: LineKind)
    ensures Filter(FlatMap(colors, SassColorLines), Kind(k)) == if k == SassColorLine then FlatMap(colors, SassColorLines) else []
  {
    forall i | 0 <= i < |colors| ensures Uniform(SassColorLines(colors[i]), Kind(k), k == SassColorLine) {
      SassColorKind(colors[i]);
      KindUniform(SassColorLines(colors[i]), SassColorLine, k);
    }
    FilterSection(colors, SassColorLines, Kind(k), k == SassColorLine);
  }

  function FontMapOpens(t: TypographyToken): seq<string>
  {
    [FontMapOpen(t)]
  }

  lemma FontSection(typography: seq<TypographyToken>, k: LineKind)
    requires k != OtherLine
    ensures Filter(FlatMap(typography, FontMap), Kind(k)) == if k == SassFontLine then FlatMap(typography, FontMapOpens) else []
  {
    if k == SassFontLine {
      forall i | 0 <= i < |typography| ensures Filter(FontMap(typography[i]), Kind(k)) == FontMapOpens(typography[i]) {
        FontMapOfKind(typography[i], k);
      }
      FilterFlatMap(typography, FontMap, FontMapOpens, Kind(k));
    } else {
      forall i | 0 <= i < |typography| ensures Filter(FontMap(typography[i]), Kind(k)) == [] {
        FontMapOfKind(typography[i], k);
      }
      FilterFlatMapNone(typography, FontMap, Kind(k));
    }
  }

  lemma SpacingSection(spacing: seq<SpacingToken>, k: LineKind)
    ensures Filter(FlatMap(spacing, SassSpacingLines), Kind(k)) == if k == SassSpacingLine then FlatMap(spacing, SassSpacingLines) else []
  {
    forall i | 0 <= i < |spacing| ensures Uniform(SassSpacingLines(spacing[i]), Kind(k), k == SassSpacingLine) {
      SassSpacingKind(spacing[i]);
      KindUniform(SassSpacingLines(spacing[i]), SassSpacingLine, k);
    }
    FilterSection(spacing, SassSpacingLines, Kind(k), k == SassSpacingLine);
  }

  /** Under the filter for a kind other than OtherLine, the token sections
      give what their bodies give. */
  lemma TokensOfKind(t: StyleSet, k: LineKind)
    requires k != OtherLine
    ensures Filter(ScssTokens(t), Kind(k))
      == Filter(FlatMap(t.colors, SassColorLines), Kind(k)) + Filter(FlatMap(t.typography, FontMap), Kind(k))
       + Filter(FlatMap(t.spacing, SassSpacingLines), Kind(k))
  {
    var p := Kind(k);
    HeaderKinds();
    SectionFilter(ColorHeader, FlatMap(t.colors, SassColorLines), p);
    SectionFilter(TypographyHeader, FlatMap(t.typography, FontMap), p);
    SectionFilter(SpacingHeader, FlatMap(t.spacing, SassSpacingLines), p);
    FilterConcat3(Section(ColorHeader, FlatMap(t.colors, SassColorLines)),
      Section(TypographyHeader, FlatMap(t.typography, FontMap)),
      Section(SpacingHeader, FlatMap(t.spacing, SassSpacingLines)), p);
  }

  lemma TokenColors(t: StyleSet)
    ensures Filter(ScssTokens(t), Kind(SassColorLine)) == FlatMap(t.colors, SassColorLines)
  {
    TokensOfKind(t, SassColorLine);
    ColorSection(t.colors, SassColorLine);
    FontSection(t.typography, SassColorLine);
    SpacingSection(t.spacing, SassColorLine);
  }

  lemma TokenFonts(t: StyleSet)
    ensures Filter(ScssTokens(t), Kind(SassFontLine)) == FlatMap(t.typography, FontMapOpens)
  {
    TokensOfKind(t, SassFontLine);
    ColorSection(t.colors, SassFontLine);
    FontSection(t.typography, SassFontLine);
    SpacingSection(t.spacing, SassFontLine);
  }

  lemma TokenSpacing(t: StyleSet)
    ensures Filter(ScssTokens(t), Kind(SassSpacingLine)) == FlatMap(t.spacing, SassSpacingLines)
  {
    TokensOfKind(t, SassSpacingLine);
    ColorSection(t.colors, SassSpacingLine);
    FontSection(t.typography, SassSpacingLine);
    SpacingSection(t.spacing, SassSpacingLine);
  }

  lemma TokensHaveNoRuleLines(t: StyleSet, k: LineKind)
    requires k in {RuleHeadLine, BackgroundLine}
    ensures Filter(ScssTokens(t), Kind(k)) == []
  {
    TokensOfKind(t, k);
    ColorSection(t.colors, k);
    FontSection(t.typography, k);
    SpacingSection(t.spacing, k);
  }

  lemma ScssBackgroundKind(c: ComponentSpec)
    ensures AllOfKind(ScssBackground(c), BackgroundLine)
  {
    if |c.styles.colors| > 0 {
      BackgroundKind("$color-" + Slug(c.styles.colors[0].name));
    }
  }

  lemma ScssRuleOfKind(c: ComponentSpec, k: LineKind)
    requires k != OtherLine
    ensures Filter(ScssRule(c), Kind(k))
      == if k == RuleHeadLine then [RuleHead(c)] else if k == BackgroundLine then ScssBackground(c) else []
  {
    ScssBackgroundKind(c);
    RuleOfKind(c, ScssBackground(c), k);
  }

  /** The output's lines of kind k are those of the token sections when
      tokens are included, followed by those of the rules when components are. */
  lemma ScssFilter(styles: ExtractedStyles, format: ExportFormat, k: LineKind)
    ensures Filter(ScssLines(styles, format), Kind(k))
      == (if format.includeTokens then Filter(ScssTokens(styles.tokens), Kind(k)) else [])
       + (if format.includeComponents then Filter(FlatMap(styles.components, ScssRule), Kind(k)) else [])
  {
    var a := if format.includeTokens then ScssTokens(styles.tokens) else [];
    var b := if format.includeComponents then FlatMap(styles.components, ScssRule) else [];
    FilterAppend(a, b, Kind(k));
  }

  /** A variable line kind appears only in the token sections. */
  lemma TokenKindOnly(styles: ExtractedStyles, format: ExportFormat, k: LineKind)
    requires k in {SassColorLine, SassFontLine, SassSpacingLine}
    ensures Filter(ScssLines(styles, format), Kind(k))
      == if format.includeTokens then Filter(ScssTokens(styles.tokens), Kind(k)) else []
  {
    ScssFilter(styles, format, k);
    if format.includeComponents {
      forall i | 0 <= i < |styles.components| ensures Filter(ScssRule(styles.components[i]), Kind(k)) == [] {
        ScssRuleOfKind(styles.components[i], k);
      }
      FilterFlatMapNone(styles.components, ScssRule, Kind(k));
    }
  }

  /** A rule line kind appears only in the rules. */
  lemma RuleKindOnly(styles: ExtractedStyles, format: ExportFormat, k: LineKind)
    requires k in {RuleHeadLine, BackgroundLine}
    ensures Filter(ScssLines(styles, format), Kind(k))
      == if format.includeComponents then Filter(FlatMap(styles.components, ScssRule), Kind(k)) else []
  {
    ScssFilter(styles, format, k);
    if format.includeTokens {
      TokensHaveNoRuleLines(styles.tokens, k);
    }
  }

  /** One `$color-` variable per colour token, in token order, when tokens
      are included; none otherwise. */
  lemma ScssColorVars(styles: ExtractedStyles, format: ExportFormat)
    ensures var ls := Filter(ScssLines(styles, format), Kind(SassColorLine));
      && (!format.includeTokens ==> ls == [])
      && (format.includeTokens ==> (|ls| == |styles.tokens.colors|
            && forall i :: 0 <= i < |ls| ==> ls[i] == SassColor(styles.tokens.colors[i])))
  {
    TokenKindOnly(styles, format, SassColorLine);
    if format.includeTokens {
      TokenColors(styles.tokens);
      FlatMapSingletons(styles.tokens.colors, SassColorLines, SassColor);
    }
  }

  /** One `$font-` map per typography token, in token order, when tokens
      are included. */
  lemma ScssFontMaps(styles: ExtractedStyles, format: ExportFormat)
    ensures var ls := Filter(ScssLines(styles, format), Kind(SassFontLine));
      && (!format.includeTokens ==> ls == [])
      && (format.includeTokens ==> (|ls| == |styles.tokens.typography|
            && forall i :: 0 <= i < |ls| ==> ls[i] == FontMapOpen(styles.tokens.typography[i])))
  {
    TokenKindOnly(styles, format, SassFontLine);
    if format.includeTokens {
      TokenFonts(styles.tokens);
      FlatMapSingletons(styles.tokens.typography, FontMapOpens, FontMapOpen);
    }
  }

  /** The typography section holds the five lines of each token's map,
      token by token. */
  lemma FontMapBlocks(ty: seq<TypographyToken>)
    ensures |FlatMap(ty, FontMap)| == 5 * |ty|
    ensures forall i :: 0 <= i < |ty| ==> FlatMap(ty, FontMap)[5 * i..5 * i + 5] == FontMap(ty[i])
  {
    FlatMapLength(ty, FontMap, 5);
    forall i | 0 <= i < |ty| ensures FlatMap(ty, FontMap)[5 * i..5 * i + 5] == FontMap(ty[i]) {
      FlatMapBlock(ty, FontMap, 5, i);
    }
  }

  /** The five lines of a typography token's map as the template spells
      them. */
  function FontMapLines(t: TypographyToken): seq<string>
  {
    ["$font-" + Slug(t.name) + ": (",
     "  family: " + t.fontFamily + ",",
     "  size: " + IntToString(t.fontSize) + "px,",
     "  weight: " + IntToString(t.fontWeight),
     ");"]
  }

  lemma FamilyText(v: string)
    ensures Entry("family", v + ",") == "  family: " + v + ","
  {
  }

  lemma SizeText(n: string)
    ensures Entry("size", n + "px" + ",") == "  size: " + n + "px,"
  {
  }

  lemma WeightText(n: string)
    ensures Entry("weight", n) == "  weight: " + n
  {
  }

  /** Every map is the template's five lines. */
  lemma FontMapText(t: TypographyToken)
    ensures FontMap(t) == FontMapLines(t)
  {
    var n, w := IntToString(t.fontSize), IntToString(t.fontWeight);
    var ls := FontMap(t);
    assert ls[1] == Entry("family", t.fontFamily + ",");
    assert ls[2] == Entry("size", n + "px" + ",");
    assert ls[3] == Entry("weight", w);
    FamilyText(t.fontFamily);
    SizeText(n);
    WeightText(w);
  }

  /** The colour section and the typography header, which come before the
      first map. */
  function FontMapsStart(t: StyleSet): seq<string>
  {
    Section(ColorHeader, FlatMap(t.colors, SassColorLines)) + [TypographyHeader]
  }

  /** The empty line that ends the typography section, and the spacing
      section. */
  function FontMapsEnd(t: StyleSet): seq<string>
  {
    [""] + Section(SpacingHeader, FlatMap(t.spacing, SassSpacingLines))
  }

  lemma ScssTokensAround(t: StyleSet)
    ensures ScssTokens(t) == FontMapsStart(t) + FlatMap(t.typography, FontMap) + FontMapsEnd(t)
  {
    var a, x, f, y := Section(ColorHeader, FlatMap(t.colors, SassColorLines)), [TypographyHeader],
      FlatMap(t.typography, FontMap), [""];
    var sp := Section(SpacingHeader, FlatMap(t.spacing, SassSpacingLines));
    AppendAssoc(a, x + f, y);
    AppendAssoc(a, x, f);
    AppendAssoc(a + x + f, y, sp);
  }

  lemma FontMapsWithin(t: StyleSet, i: nat)
    requires i < |t.typography|
    ensures SliceIs(FontMapsStart(t) + FlatMap(t.typography, FontMap) + FontMapsEnd(t),
      |t.colors| + 3 + 5 * i, FontMapLines(t.typography[i]))
  {
    FlatMapLength(t.colors, SassColorLines, 1);
    FontMapBlocks(t.typography);
    FontMapText(t.typography[i]);
    SliceIsMiddle(FontMapsStart(t), FlatMap(t.typography, FontMap), FontMapsEnd(t), 5 * i, FontMapLines(t.typography[i]));
  }

  /** Map i of the typography section sits after the colour section, the
      typography header and the five lines of each map before it, and
      holds the template's five lines. */
  lemma TokensFontMapLines(t: StyleSet, i: nat)
    requires i < |t.typography|
    ensures SliceIs(ScssTokens(t), |t.colors| + 3 + 5 * i, FontMapLines(t.typography[i]))
  {
    FontMapsWithin(t, i);
    ScssTokensAround(t);
    SliceIsEqual(FontMapsStart(t) + FlatMap(t.typography, FontMap) + FontMapsEnd(t), ScssTokens(t),
      |t.colors| + 3 + 5 * i, FontMapLines(t.typography[i]));
  }

  lemma ScssLinesTokens(styles: ExtractedStyles, format: ExportFormat)
    requires format.includeTokens
    ensures ScssLines(styles, format) == ScssTokens(styles.tokens)
      + (if format.includeComponents then FlatMap(styles.components, ScssRule) else [])
  {
  }

  /** With tokens included, the output holds each typography token's map,
      line for line as the template spells it, after the colour section
      and the maps before it. */
  lemma ScssFontMapLines(styles: ExtractedStyles, format: ExportFormat, i: nat)
    requires format.includeTokens && i < |styles.tokens.typography|
    ensures SliceIs(ScssLines(styles, format), |styles.tokens.colors| + 3 + 5 * i,
      FontMapLines(styles.tokens.typography[i]))
  {
    var rules := if format.includeComponents then FlatMap(styles.components, ScssRule) else [];
    TokensFontMapLines(styles.tokens, i);
    SliceIsPrefix(ScssTokens(styles.tokens), rules, |styles.tokens.colors| + 3 + 5 * i, FontMapLines(styles.tokens.typography[i]));
    ScssLinesTokens(styles, format);
    SliceIsEqual(ScssTokens(styles.tokens) + rules, ScssLines(styles, format),
      |styles.tokens.colors| + 3 + 5 * i, FontMapLines(styles.tokens.typography[i]));
  }

  /** One `$spacing-` variable per spacing token, in token order, when
      tokens are included. */
  lemma ScssSpacingVars(styles: ExtractedStyles, format: ExportFormat)
    ensures var ls := Filter(ScssLines(styles, format), Kind(SassSpacingLine));
      && (!format.includeTokens ==> ls == [])
      && (format.includeTokens ==> (|ls| == |styles.tokens.spacing|
            && forall i :: 0 <= i < |ls| ==> ls[i] == SassSpacing(styles.tokens.spacing[i])))
  {
    TokenKindOnly(styles, format, SassSpacingLine);
    if format.includeTokens {
      TokenSpacing(styles.tokens);
      FlatMapSingletons(styles.tokens.spacing, SassSpacingLines, SassSpacing);
    }
  }

  function RuleHeadLines(c: ComponentSpec): seq<string>
  {
    [RuleHead(c)]
  }

  /** One rule per component, in component order, with the same selector
      as in the CSS output. */
  lemma ScssRuleHeads(styles: ExtractedStyles, format: ExportFormat)
    ensures var ls := Filter(ScssLines(styles, format), Kind(RuleHeadLine));
      && (!format.includeComponents ==> ls == [])
      && (format.includeComponents ==> (|ls| == |styles.components|
            && forall i :: 0 <= i < |ls| ==> ls[i] == RuleHead(styles.components[i])))
  {
    RuleKindOnly(styles, format, RuleHeadLine);
    if format.includeComponents {
      var cs := styles.components;
      forall i | 0 <= i < |cs| ensures Filter(ScssRule(cs[i]), Kind(RuleHeadLine)) == RuleHeadLines(cs[i]) {
        ScssRuleOfKind(cs[i], RuleHeadLine);
      }
      FilterFlatMap(cs, ScssRule, RuleHeadLines, Kind(RuleHeadLine));
      FlatMapSingletons(cs, RuleHeadLines, RuleHead);
    }
  }

  predicate HasColor(c: ComponentSpec)
  {
    |c.styles.colors| > 0
  }

  function FirstBackground(c: ComponentSpec): string
  {
    BackgroundDecl("$color-" + Slug(if |c.styles.colors| > 0 then c.styles.colors[0].name else ""))
  }

  /** A background-color line for each component that has a colour, in
      order, naming the `$color-` variable of that component's first colour
      rather than its hex; components without colours have none. */
  lemma ScssBackgrounds(styles: ExtractedStyles, format: ExportFormat)
    ensures var ls := Filter(ScssLines(styles, format), Kind(BackgroundLine));
      var colored := Filter(styles.components, HasColor);
      && (!format.includeComponents ==> ls == [])
      && (format.includeComponents ==> (|ls| == |colored|
            && forall i :: 0 <= i < |ls| ==>
                 ls[i] == BackgroundDecl("$color-" + Slug(colored[i].styles.colors[0].name))))
  {
    RuleKindOnly(styles, format, BackgroundLine);
    if format.includeComponents {
      var cs := styles.components;
      forall i | 0 <= i < |cs| ensures Filter(ScssRule(cs[i]), Kind(BackgroundLine)) == ScssBackground(cs[i]) {
        ScssRuleOfKind(cs[i], BackgroundLine);
      }
      FilterFlatMap(cs, ScssRule, ScssBackground, Kind(BackgroundLine));
      FlatMapOptional(cs, ScssBackground, HasColor, FirstBackground);
    }
  }

  /** Borders and shadows never reach the SCSS output. */
  lemma ScssIgnoresBordersAndShadows(styles: ExtractedStyles, borders: seq<BorderToken>, shadows: seq<ShadowToken>, format: ExportFormat)
    ensures var t := styles.tokens;
      ScssLines(styles.(tokens := t.(borders := borders, shadows := shadows)), format) == ScssLines(styles, format)
  {
  }
}
