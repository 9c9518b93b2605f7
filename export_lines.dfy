/** What the CSS and SCSS exporters share: the text is a sequence of lines,
    each written followed by a newline; every line has a kind read off its
    prefix; a component rule is a selector line, three box declarations, an
    optional background line and '}\n\n'. */
module ExportLines {
  import opened Types
  import opened Strings
  import opened Slugs

  /** The unit as the token type spells it. */
  function UnitText(u: SpacingUnit): string
  {
    match u
    case Px => "px"
    case Rem => "rem"
    case Em => "em"
    case Percent => "%"
  }

  /** The component type as the record spells it. */
  function TypeText(k: ComponentType): string
  {
    match k
    case Button => "button"
    case Card => "card"
    case Input => "input"
    case Accordion => "accordion"
    case Breadcrumb => "breadcrumb"
    case Modal => "modal"
    case Navbar => "navbar"
    case OtherType => "other"
  }

  function PxText(n: int): string
  {
    IntToString(n) + "px"
  }

  /** A spacing token's slug, its value immediately followed by its unit,
      and the closing ';': the part after the variable prefix, the same in
      CSS and SCSS. */
  function SpacingDecl(s: SpacingToken): string
  {
    Slug(s.name) + ": " + IntToString(s.value) + UnitText(s.unit) + ";"
  }

  // ---------------------------------------------------------------------
  // Line kinds
  // ---------------------------------------------------------------------

  datatype LineKind =
    | RootOpen | ColorVarLine | FontVarLine | SpacingVarLine
    | SassColorLine | SassFontLine | SassSpacingLine
    | RuleHeadLine | BackgroundLine | OtherLine

  /** The kind of an output line, read off the prefix it begins with. */
  function KindOf(l: string): LineKind
  {
    if StartsWith(l, ":root {") then RootOpen
    else if StartsWith(l, "  --color-") then ColorVarLine
    else if StartsWith(l, "  --font-") then FontVarLine
    else if StartsWith(l, "  --spacing-") then SpacingVarLine
    else if StartsWith(l, "$color-") then SassColorLine
    else if StartsWith(l, "$font-") then SassFontLine
    else if StartsWith(l, "$spacing-") then SassSpacingLine
    else if StartsWith(l, ".component-") then RuleHeadLine
    else if StartsWith(l, "  background-color: ") then BackgroundLine
    else OtherLine
  }

  predicate AllOfKind(ls: seq<string>, k: LineKind)
  {
    forall j :: 0 <= j < |ls| ==> KindOf(ls[j]) == k
  }

  /** The lines of one kind, as a filter. */
  function Kind(k: LineKind): string -> bool
  {
    l => KindOf(l) == k
  }

  /** Lines all of kind k are kept whole by the filter for k and dropped by
      the filter for any other kind. */
  lemma KindUniform(ls: seq<string>, k: LineKind, k2: LineKind)
    requires AllOfKind(ls, k)
    ensures Uniform(ls, Kind(k2), k == k2)
  {
  }

  /** '}\n\n' closes a block: a closing line, then an empty one. */
  const Close: seq<string> := ["}", ""]

  lemma CloseKind()
    ensures KindOf("}") == OtherLine && KindOf("") == OtherLine
  {
    UnindentedOther("}");
  }

  // ---------------------------------------------------------------------
  // Component rules
  // ---------------------------------------------------------------------

  function RuleHead(c: ComponentSpec): string
  {
    ".component-" + TypeText(c.kind) + "-" + c.id + " {"
  }

  /** An indented `property: value` line. */
  function Entry(property: string, value: string): string
  {
    "  " + property + ": " + value
  }

  /** A declaration of a rule body: an entry ended by a semicolon. */
  function Declaration(property: string, value: string): string
  {
    Entry(property, value + ";")
  }

  /** Width, height and the four padding values, all in px. */
  function RuleBox(c: ComponentSpec): (ls: seq<string>)
    ensures |ls| == 3
  {
    var m := c.measurements;
    [Declaration("width", PxText(m.width)),
     Declaration("height", PxText(m.height)),
     Declaration("padding", PxText(m.padding.top) + " " + PxText(m.padding.right) + " "
       + PxText(m.padding.bottom) + " " + PxText(m.padding.left))]
  }

  function BackgroundDecl(value: string): string
  {
    "  background-color: " + value + ";"
  }

  /** A rule with the given background lines. */
  function Rule(c: ComponentSpec, background: seq<string>): seq<string>
  {
    [RuleHead(c)] + RuleBox(c) + background + Close
  }

  /** The selector line of c, then its width, height and four-value
      padding in px, as the exporters' templates spell them. */
  function OpeningLines(c: ComponentSpec): seq<string>
  {
    var m := c.measurements;
    [".component-" + TypeText(c.kind) + "-" + c.id + " {",
     "  width: " + IntToString(m.width) + "px;",
     "  height: " + IntToString(m.height) + "px;",
     "  padding: " + IntToString(m.padding.top) + "px " + IntToString(m.padding.right) + "px "
       + IntToString(m.padding.bottom) + "px " + IntToString(m.padding.left) + "px;"]
  }

  lemma WidthText(n: string)
    ensures Declaration("width", n + "px") == "  width: " + n + "px;"
  {
  }

  lemma HeightText(n: string)
    ensures Declaration("height", n + "px") == "  height: " + n + "px;"
  {
  }

  lemma PaddingText(a: string, b: string, c: string, d: string)
    ensures Declaration("padding", a + "px" + " " + b + "px" + " " + c + "px" + " " + d + "px")
      == "  padding: " + a + "px " + b + "px " + c + "px " + d + "px;"
  {
  }

  lemma RuleLength(c: ComponentSpec, background: seq<string>)
    ensures |Rule(c, background)| >= 4
  {
  }

  /** A rule begins with its selector line and its box. */
  lemma RuleParts(c: ComponentSpec, background: seq<string>)
    ensures |Rule(c, background)| >= 4
    ensures Rule(c, background)[0] == RuleHead(c)
    ensures Rule(c, background)[1..4] == RuleBox(c)
  {
  }

  /** The box declarations as the templates spell them. */
  lemma RuleBoxText(c: ComponentSpec)
    ensures var m, ls := c.measurements, RuleBox(c);
      && ls[0] == "  width: " + IntToString(m.width) + "px;"
      && ls[1] == "  height: " + IntToString(m.height) + "px;"
      && ls[2] == "  padding: " + IntToString(m.padding.top) + "px " + IntToString(m.padding.right) + "px "
        + IntToString(m.padding.bottom) + "px " + IntToString(m.padding.left) + "px;"
  {
    var m := c.measurements;
    var w, h := IntToString(m.width), IntToString(m.height);
    var t, r, b, l := IntToString(m.padding.top), IntToString(m.padding.right),
      IntToString(m.padding.bottom), IntToString(m.padding.left);
    var ls := RuleBox(c);
    assert ls[0] == Declaration("width", w + "px");
    assert ls[1] == Declaration("height", h + "px");
    assert ls[2] == Declaration("padding", t + "px" + " " + r + "px" + " " + b + "px" + " " + l + "px");
    WidthText(w);
    HeightText(h);
    PaddingText(t, r, b, l);
  }

  /** Every rule opens with its selector and its three box declarations. */
  lemma RuleOpens(c: ComponentSpec, background: seq<string>)
    ensures SliceIs(Rule(c, background), 0, OpeningLines(c))
  {
    RuleParts(c, background);
    RuleBoxText(c);
    var r, w := Rule(c, background), OpeningLines(c);
    assert r[0..4][0] == w[0] && r[0..4][1] == w[1] && r[0..4][2] == w[2] && r[0..4][3] == w[3];
  }

  lemma RuleHeadKind(c: ComponentSpec)
    ensures KindOf(RuleHead(c)) == RuleHeadLine
  {
    assert RuleHead(c)[0] == '.';
  }

  /** A line that begins with none of ' ', ':', '$' and '.' is of no
      particular kind. */
  lemma UnindentedOther(l: string)
    requires |l| > 0 && l[0] != ' ' && l[0] != ':' && l[0] != '$' && l[0] != '.'
    ensures KindOf(l) == OtherLine
  {
  }

  /** An indented line whose third character is neither '-' nor 'b' is of
      no particular kind. */
  lemma IndentedOther(l: string)
    requires |l| > 2 && l[0] == ' ' && l[2] != '-' && l[2] != 'b'
    ensures KindOf(l) == OtherLine
  {
  }

  /** An entry whose property begins with neither '-' nor 'b' is of no
      particular kind. */
  lemma EntryKind(property: string, value: string)
    requires |property| > 0 && property[0] != '-' && property[0] != 'b'
    ensures KindOf(Entry(property, value)) == OtherLine
  {
    var l := Entry(property, value);
    assert |l| > 2 && l[0] == ' ' && l[2] == property[0];
    IndentedOther(l);
  }

  lemma RuleBoxKind(c: ComponentSpec)
    ensures AllOfKind(RuleBox(c), OtherLine)
  {
    var m := c.measurements;
    EntryKind("width", PxText(m.width) + ";");
    EntryKind("height", PxText(m.height) + ";");
    EntryKind("padding", PxText(m.padding.top) + " " + PxText(m.padding.right) + " "
       + PxText(m.padding.bottom) + " " + PxText(m.padding.left) + ";");
  }

  lemma BackgroundKind(value: string)
    ensures KindOf(BackgroundDecl(value)) == BackgroundLine
  {
    var l := BackgroundDecl(value);
    assert l[0] == ' ' && l[2] == 'b';
  }

  /** Under a filter that drops the box and closing lines, a rule gives what
      its selector line and its background lines give. */
  lemma RuleFilter(c: ComponentSpec, background: seq<string>, p: string -> bool)
    requires Uniform(RuleBox(c), p, false) && !p("}") && !p("")
    ensures Filter(Rule(c, background), p) == Filter([RuleHead(c)], p) + Filter(background, p)
  {
    FilterUniform(RuleBox(c), p, false);
    FilterNone(Close, p);
    FilterDropping([RuleHead(c)], RuleBox(c), background, Close, p);
  }

  /** The lines of kind k in one rule: its selector line, its background
      lines, nothing else. */
  lemma RuleOfKind(c: ComponentSpec, background: seq<string>, k: LineKind)
    requires AllOfKind(background, BackgroundLine)
    requires k != OtherLine
    ensures Filter(Rule(c, background), Kind(k))
      == if k == RuleHeadLine then [RuleHead(c)] else if k == BackgroundLine then background else []
  {
    var p := Kind(k);
    assert Filter(Rule(c, background), p) == Filter([RuleHead(c)], p) + Filter(background, p) by {
      CloseKind();
      RuleBoxKind(c);
      KindUniform(RuleBox(c), OtherLine, k);
      RuleFilter(c, background, p);
    }
    assert Filter([RuleHead(c)], p) == if k == RuleHeadLine then [RuleHead(c)] else [] by {
      RuleHeadKind(c);
      FilterOne(RuleHead(c), p);
    }
    assert Filter(background, p) == if k == BackgroundLine then background else [] by {
      KindUniform(background, BackgroundLine, k);
      FilterUniform(background, p, k == BackgroundLine);
    }
  }

  /** Under a filter that drops a section's header and its trailing empty
      line, the section gives what its body gives. */
  lemma SectionFilter(header: string, body: seq<string>, p: string -> bool)
    requires !p(header) && !p("")
    ensures Filter([header] + body + [""], p) == Filter(body, p)
  {
    FilterOne(header, p);
    FilterOne("", p);
    FilterConcat3([header], body, [""], p);
  }

  // ---------------------------------------------------------------------
  // Appending to the output
  // ---------------------------------------------------------------------

  /** Appends each piece followed by a newline: the `out += ...\n` of the
      exporters. */
  method Emit(text: string, ghost lines: seq<string>, pieces: seq<string>) returns (out: string)
    requires text == Lines(lines)
    ensures out == Lines(lines + pieces)
  {
    out := text;
    var j := 0;
    assert lines + pieces[..j] == lines;
    while j < |pieces|
      invariant 0 <= j <= |pieces|
      invariant out == Lines(lines + pieces[..j])
    {
      LinesSnoc(lines + pieces[..j], pieces[j]);
      assert lines + pieces[..j] + [pieces[j]] == lines + pieces[..j + 1];
      out := out + pieces[j] + "\n";
      j := j + 1;
    }
    assert pieces[..j] == pieces;
  }

  /** The lines of each element of xs in turn: a forEach whose body
      appends f(x). */
  method EmitEach<T>(text: string, ghost lines: seq<string>, xs: seq<T>, f: T -> seq<string>) returns (out: string)
    requires text == Lines(lines)
    ensures out == Lines(lines + FlatMap(xs, f))
  {
    out := text;
    var i := 0;
    assert lines + FlatMap(xs[..i], f) == lines;
    while i < |xs|
      invariant 0 <= i <= |xs|
      invariant out == Lines(lines + FlatMap(xs[..i], f))
    {
      ghost var done := lines + FlatMap(xs[..i], f);
      FlatMapSnoc(xs, i, f);
      AppendAssoc(lines, FlatMap(xs[..i], f), f(xs[i]));
      out := Emit(out, done, f(xs[i]));
      assert out == Lines(lines + FlatMap(xs[..i + 1], f));
      i := i + 1;
      assert out == Lines(lines + FlatMap(xs[..i], f));
    }
    assert xs[..i] == xs;
  }

  /** A rule: selector, box, the background lines when background holds,
      then '}\n\n'. */
  method EmitRule(text: string, ghost lines: seq<string>, c: ComponentSpec, hasBackground: bool, background: seq<string>)
    returns (out: string)
    requires text == Lines(lines)
    requires !hasBackground ==> background == []
    ensures out == Lines(lines + Rule(c, background))
  {
    var head := [RuleHead(c)] + RuleBox(c);
    out := Emit(text, lines, head);
    if hasBackground {
      out := Emit(out, lines + head, background);
    } else {
      assert lines + head + background == lines + head;
    }
    out := Emit(out, lines + head + background, Close);
    assert Rule(c, background) == head + background + Close;
    AppendAssoc(lines, head, background);
    AppendAssoc(lines, head + background, Close);
  }
}
