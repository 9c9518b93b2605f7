/** The records of the style extractor: design tokens, detected components,
    the aggregate of one extraction run and the export options.
    Every entity is an immutable value; the editing layer replaces records
    by copy-on-write. Numeric fields are modelled as integers. */
module Types {

  /** One channel byte of an RGBA pixel buffer. */
  newtype byte = x: int | 0 <= x < 256

  datatype Option<T> = None | Some(value: T)

  /** The functional role inferred for a colour. */
  datatype Usage = Background | Text | Border | Shadow | Other

  datatype ColorToken = ColorToken(
    id: string,
    name: string,
    hex: string,
    rgb: string,
    hsl: string,
    usage: Usage,
    frequency: int)

  datatype TextAlign = AlignLeft | AlignCenter | AlignRight | AlignJustify

  datatype TypographyToken = TypographyToken(
    id: string,
    name: string,
    fontFamily: string,
    fontSize: int,
    fontWeight: int,
    lineHeight: int,
    letterSpacing: int,
    textAlign: TextAlign,
    color: string)

  datatype SpacingUnit = Px | Rem | Em | Percent

  datatype SpacingKind = Padding | Margin | Gap

  datatype Direction = Top | RightSide | Bottom | LeftSide | Horizontal | Vertical | All

  datatype SpacingToken = SpacingToken(
    id: string,
    name: string,
    value: int,
    unit: SpacingUnit,
    kind: SpacingKind,
    direction: Option<Direction>)

  datatype BorderStyle = Solid | Dashed | Dotted | NoBorder

  datatype BorderToken = BorderToken(
    id: string,
    name: string,
    width: int,
    style: BorderStyle,
    color: string,
    radius: int)

  datatype ShadowKind = BoxShadow | TextShadow

  datatype ShadowToken = ShadowToken(
    id: string,
    name: string,
    offsetX: int,
    offsetY: int,
    blurRadius: int,
    spreadRadius: int,
    color: string,
    kind: ShadowKind)

  /** The five token lists, used both for the global tokens and for the
      styles scoped to one component. */
  datatype StyleSet = StyleSet(
    colors: seq<ColorToken>,
    typography: seq<TypographyToken>,
    spacing: seq<SpacingToken>,
    borders: seq<BorderToken>,
    shadows: seq<ShadowToken>)

  datatype ComponentType = Button | Card | Input | Accordion | Breadcrumb | Modal | Navbar | OtherType

  datatype ComponentState = Default | Hover | Active | Disabled | Focus

  datatype BoundingBox = BoundingBox(x: int, y: int, width: int, height: int)

  datatype Sides = Sides(top: int, right: int, bottom: int, left: int)

  datatype Measurements = Measurements(width: int, height: int, padding: Sides, margin: Sides)

  datatype ComponentSpec = ComponentSpec(
    id: string,
    kind: ComponentType,
    name: string,
    boundingBox: BoundingBox,
    styles: StyleSet,
    states: Option<seq<ComponentState>>,
    measurements: Measurements)

  datatype ToleranceSettings = ToleranceSettings(color: int, spacing: int, typography: int, borderRadius: int)

  datatype Viewport = Desktop | Tablet | Mobile

  datatype Dimensions = Dimensions(width: int, height: int)

  /** extractedAt is a clock reading in milliseconds, supplied by the caller. */
  datatype Metadata = Metadata(
    extractedAt: int,
    imageUrl: string,
    imageDimensions: Dimensions,
    viewport: Viewport,
    tolerances: ToleranceSettings)

  datatype ExtractedStyles = ExtractedStyles(
    id: string,
    sourceImage: string,
    components: seq<ComponentSpec>,
    tokens: StyleSet,
    metadata: Metadata)

  datatype AnalysisResult = AnalysisResult(
    dominantColors: seq<ColorToken>,
    detectedComponents: seq<ComponentSpec>,
    suggestedTokens: StyleSet)

  datatype Format = Json | Css | Scss | Tailwind

  datatype ExportFormat = ExportFormat(
    format: Format,
    includeTokens: bool,
    includeComponents: bool,
    minifyOutput: bool)
}
