/** The state updates of the application shell: copy-on-write edit and
    delete of tokens and components by id, the component selection after a
    delete, the tolerance setting, and the record assembled from one
    analysis. Every update is a function of the previous state; the state
    before the first extraction is None and every update leaves it so. */
module AppState {
  import opened Types
  import opened Strings

  // ---------------------------------------------------------------------
  // Lists with ids
  // ---------------------------------------------------------------------

  /** The items that do not carry key. */
  function Lacks<T>(id: T -> string, key: string): T -> bool
  {
    x => id(x) != key
  }

  /** ys is xs with each item carrying key replaced by f of it. */
  predicate EditedAt<T(==)>(xs: seq<T>, ys: seq<T>, id: T -> string, key: string, f: T -> T)
  {
    && |ys| == |xs|
    && forall i :: 0 <= i < |xs| ==> ys[i] == if id(xs[i]) == key then f(xs[i]) else xs[i]
  }

  /** ys is made of items of xs, taken in their order. */
  predicate Subsequence<T(==)>(ys: seq<T>, xs: seq<T>)
    decreases |xs|
  {
    if ys == [] then true
    else if xs == [] then false
    else
      || (ys[|ys| - 1] == xs[|xs| - 1] && Subsequence(ys[..|ys| - 1], xs[..|xs| - 1]))
      || Subsequence(ys, xs[..|xs| - 1])
  }

  /** ys is xs without the items carrying key: no item of ys carries it,
      every other item occurs as often as in xs, and the order is kept. */
  ghost predicate DeletedFrom<T(!new)>(xs: seq<T>, ys: seq<T>, id: T -> string, key: string)
  {
    && (forall i :: 0 <= i < |ys| ==> id(ys[i]) != key)
    && (forall v :: multiset(ys)[v] == if id(v) == key then 0 else multiset(xs)[v])
    && Subsequence(ys, xs)
  }

  /** `xs.map(x => id(x) === key ? f(x) : x)`: the length and the order
      are kept, the items carrying key are replaced by f of them and every
      other item stays as it was. */
  function EditById<T>(xs: seq<T>, id: T -> string, key: string, f: T -> T): (ys: seq<T>)
    ensures EditedAt(xs, ys, id, key, f)
    decreases |xs|
  {
    if xs == [] then []
    else
      var x := xs[|xs| - 1];
      EditById(xs[..|xs| - 1], id, key, f) + [if id(x) == key then f(x) else x]
  }

  /** An edit whose id no item carries changes nothing. */
  lemma EditAbsent<T>(xs: seq<T>, id: T -> string, key: string, f: T -> T)
    requires forall i :: 0 <= i < |xs| ==> id(xs[i]) != key
    ensures EditById(xs, id, key, f) == xs
  {
  }

  lemma {:induction false} FilterCount<T>(xs: seq<T>, p: T -> bool, v: T)
    ensures multiset(Filter(xs, p))[v] == if p(v) then multiset(xs)[v] else 0
    decreases |xs|
  {
    if xs != [] {
      var init, x := xs[..|xs| - 1], xs[|xs| - 1];
      assert xs == init + [x];
      FilterCount(init, p, v);
    }
  }

  lemma {:induction false} FilterSubsequence<T>(xs: seq<T>, p: T -> bool)
    ensures Subsequence(Filter(xs, p), xs)
    decreases |xs|
  {
    if xs != [] {
      var init, x := xs[..|xs| - 1], xs[|xs| - 1];
      FilterSubsequence(init, p);
      if p(x) {
        assert Filter(xs, p) == Filter(init, p) + [x];
        assert Filter(xs, p)[..|Filter(xs, p)| - 1] == Filter(init, p);
      } else {
        assert Filter(xs, p) == Filter(init, p);
      }
    }
  }

  lemma FilterCounts<T(!new)>(xs: seq<T>, p: T -> bool)
    ensures forall v :: multiset(Filter(xs, p))[v] == if p(v) then multiset(xs)[v] else 0
  {
    forall v {
      FilterCount(xs, p, v);
    }
  }

  /** `xs.filter(x => id(x) !== key)`: exactly the items carrying key are
      removed, and the rest keep their order. */
  function DeleteById<T(!new)>(xs: seq<T>, id: T -> string, key: string): (ys: seq<T>)
    ensures DeletedFrom(xs, ys, id, key)
  {
    FilterCounts(xs, Lacks(id, key));
    FilterSubsequence(xs, Lacks(id, key));
    Filter(xs, Lacks(id, key))
  }

  /** A delete whose id no item carries changes nothing. */
  lemma DeleteAbsent<T(!new)>(xs: seq<T>, id: T -> string, key: string)
    requires forall i :: 0 <= i < |xs| ==> id(xs[i]) != key
    ensures DeleteById(xs, id, key) == xs
  {
    FilterAll(xs, Lacks(id, key));
  }

  /** Deleting from a concatenation deletes from each part. */
  lemma DeleteSplits<T(!new)>(a: seq<T>, b: seq<T>, id: T -> string, key: string)
    ensures DeleteById(a + b, id, key) == DeleteById(a, id, key) + DeleteById(b, id, key)
  {
    FilterAppend(a, b, Lacks(id, key));
  }

  // ---------------------------------------------------------------------
  // Partial records: `{ ...item, ...updates }`
  // ---------------------------------------------------------------------

  /** The field from the update when it has one, else the old field. */
  function Pick<V>(current: V, update: Option<V>): V
  {
    if update.Some? then update.value else current
  }

  datatype ColorUpdate = ColorUpdate(
    id: Option<string>,
    name: Option<string>,
    hex: Option<string>,
    rgb: Option<string>,
    hsl: Option<string>,
    usage: Option<Usage>,
    frequency: Option<int>)

  const NoColorChange := ColorUpdate(None, None, None, None, None, None, None)

  /** `{ ...c, ...u }`: a field the update holds replaces the token's. */
  function MergeColor(c: ColorToken, u: ColorUpdate): (r: ColorToken)
    ensures u == NoColorChange ==> r == c
    ensures u.id.None? ==> r.id == c.id
    ensures u.hex.Some? ==> r.hex == u.hex.value
    ensures u.rgb.None? && u.hsl.None? ==> r.rgb == c.rgb && r.hsl == c.hsl
  {
    ColorToken(Pick(c.id, u.id), Pick(c.name, u.name), Pick(c.hex, u.hex), Pick(c.rgb, u.rgb),
      Pick(c.hsl, u.hsl), Pick(c.usage, u.usage), Pick(c.frequency, u.frequency))
  }

  datatype TypographyUpdate = TypographyUpdate(
    id: Option<string>,
    name: Option<string>,
    fontFamily: Option<string>,
    fontSize: Option<int>,
    fontWeight: Option<int>,
    lineHeight: Option<int>,
    letterSpacing: Option<int>,
    textAlign: Option<TextAlign>,
    color: Option<string>)

  const NoTypographyChange := TypographyUpdate(None, None, None, None, None, None, None, None, None)

  /** `{ ...typo, ...updates }`: a field the update holds replaces the
      token's. */
  function MergeTypography(t: TypographyToken, u: TypographyUpdate): (r: TypographyToken)
    ensures u == NoTypographyChange ==> r == t
    ensures u.id.None? ==> r.id == t.id
    ensures u.fontFamily.Some? ==> r.fontFamily == u.fontFamily.value
  {
    TypographyToken(Pick(t.id, u.id), Pick(t.name, u.name), Pick(t.fontFamily, u.fontFamily),
      Pick(t.fontSize, u.fontSize), Pick(t.fontWeight, u.fontWeight), Pick(t.lineHeight, u.lineHeight),
      Pick(t.letterSpacing, u.letterSpacing), Pick(t.textAlign, u.textAlign), Pick(t.color, u.color))
  }

  /** states is an optional field, so its update is an optional option. */
  datatype ComponentUpdate = ComponentUpdate(
    id: Option<string>,
    kind: Option<ComponentType>,
    name: Option<string>,
    boundingBox: Option<BoundingBox>,
    styles: Option<StyleSet>,
    states: Option<Option<seq<ComponentState>>>,
    measurements: Option<Measurements>)

  const NoComponentChange := ComponentUpdate(None, None, None, None, None, None, None)

  /** `{ ...component, ...updates }`: a field the update holds replaces the
      component's; `states` can be replaced by an absent state list. */
  function MergeComponent(c: ComponentSpec, u: ComponentUpdate): (r: ComponentSpec)
    ensures u == NoComponentChange ==> r == c
    ensures u.id.None? ==> r.id == c.id
    ensures u.states.Some? ==> r.states == u.states.value
  {
    ComponentSpec(Pick(c.id, u.id), Pick(c.kind, u.kind), Pick(c.name, u.name),
      Pick(c.boundingBox, u.boundingBox), Pick(c.styles, u.styles), Pick(c.states, u.states),
      Pick(c.measurements, u.measurements))
  }

  /** The later update's field when it has one, else the earlier one's. */
  function Later<V>(u: Option<V>, v: Option<V>): Option<V>
  {
    if v.Some? then v else u
  }

  /** `{ ...u, ...v }` for updates. */
  function ThenColor(u: ColorUpdate, v: ColorUpdate): ColorUpdate
  {
    ColorUpdate(Later(u.id, v.id), Later(u.name, v.name), Later(u.hex, v.hex), Later(u.rgb, v.rgb),
      Later(u.hsl, v.hsl), Later(u.usage, v.usage), Later(u.frequency, v.frequency))
  }

  function ThenTypography(u: TypographyUpdate, v: TypographyUpdate): TypographyUpdate
  {
    TypographyUpdate(Later(u.id, v.id), Later(u.name, v.name), Later(u.fontFamily, v.fontFamily),
      Later(u.fontSize, v.fontSize), Later(u.fontWeight, v.fontWeight), Later(u.lineHeight, v.lineHeight),
      Later(u.letterSpacing, v.letterSpacing), Later(u.textAlign, v.textAlign), Later(u.color, v.color))
  }

  function ThenComponent(u: ComponentUpdate, v: ComponentUpdate): ComponentUpdate
  {
    ComponentUpdate(Later(u.id, v.id), Later(u.kind, v.kind), Later(u.name, v.name),
      Later(u.boundingBox, v.boundingBox), Later(u.styles, v.styles), Later(u.states, v.states),
      Later(u.measurements, v.measurements))
  }

  /** Merging u and then v is merging u overridden by v; merging the same
      update twice is merging it once. */
  lemma MergeColorTwice(c: ColorToken, u: ColorUpdate, v: ColorUpdate)
    ensures MergeColor(MergeColor(c, u), v) == MergeColor(c, ThenColor(u, v))
    ensures MergeColor(MergeColor(c, u), u) == MergeColor(c, u)
  {
  }

  lemma MergeTypographyTwice(t: TypographyToken, u: TypographyUpdate, v: TypographyUpdate)
    ensures MergeTypography(MergeTypography(t, u), v) == MergeTypography(t, ThenTypography(u, v))
    ensures MergeTypography(MergeTypography(t, u), u) == MergeTypography(t, u)
  {
  }

  lemma MergeComponentTwice(c: ComponentSpec, u: ComponentUpdate, v: ComponentUpdate)
    ensures MergeComponent(MergeComponent(c, u), v) == MergeComponent(c, ThenComponent(u, v))
    ensures MergeComponent(MergeComponent(c, u), u) == MergeComponent(c, u)
  {
  }

  function ColorId(c: ColorToken): string { c.id }
  function TypographyId(t: TypographyToken): string { t.id }
  function ComponentId(c: ComponentSpec): string { c.id }

  function ColorMerger(u: ColorUpdate): ColorToken -> ColorToken { c => MergeColor(c, u) }
  function TypographyMerger(u: TypographyUpdate): TypographyToken -> TypographyToken { t => MergeTypography(t, u) }
  function ComponentMerger(u: ComponentUpdate): ComponentSpec -> ComponentSpec { c => MergeComponent(c, u) }

  // ---------------------------------------------------------------------
  // The updaters
  // ---------------------------------------------------------------------

  function WithColors(s: ExtractedStyles, colors: seq<ColorToken>): ExtractedStyles
  {
    s.(tokens := s.tokens.(colors := colors))
  }

  function WithTypography(s: ExtractedStyles, typography: seq<TypographyToken>): ExtractedStyles
  {
    s.(tokens := s.tokens.(typography := typography))
  }

  /** Only the colour list differs between s and t. */
  predicate OnlyColorsDiffer(s: ExtractedStyles, t: ExtractedStyles)
  {
    t.(tokens := s.tokens) == s && t.tokens.(colors := s.tokens.colors) == s.tokens
  }

  /** Only the typography list differs between s and t. */
  predicate OnlyTypographyDiffers(s: ExtractedStyles, t: ExtractedStyles)
  {
    t.(tokens := s.tokens) == s && t.tokens.(typography := s.tokens.typography) == s.tokens
  }

  /** Only the component list differs between s and t. */
  predicate OnlyComponentsDiffer(s: ExtractedStyles, t: ExtractedStyles)
  {
    t.(components := s.components) == s
  }

  /** The updater of `handleColorEdit`: no state stays no state; otherwise the colours are
      edited item by item and nothing else in the record changes. */
  function EditColor(prev: Option<ExtractedStyles>, key: string, u: ColorUpdate): (next: Option<ExtractedStyles>)
    ensures next.Some? <==> prev.Some?
    ensures prev.Some? ==>
      var s, t := prev.value, next.value;
      && OnlyColorsDiffer(s, t)
      && |t.tokens.colors| == |s.tokens.colors|
      && forall i :: 0 <= i < |s.tokens.colors| ==>
        t.tokens.colors[i] == if s.tokens.colors[i].id == key then MergeColor(s.tokens.colors[i], u) else s.tokens.colors[i]
  {
    if prev.None? then prev
    else Some(WithColors(prev.value, EditById(prev.value.tokens.colors, ColorId, key, ColorMerger(u))))
  }

  /** The updater of `handleColorDelete`: no state stays no state; otherwise the colour list
      loses exactly the items with the id and nothing else changes. */
  function DeleteColor(prev: Option<ExtractedStyles>, key: string): (next: Option<ExtractedStyles>)
    ensures next.Some? <==> prev.Some?
    ensures prev.Some? ==>
      var s, t := prev.value, next.value;
      OnlyColorsDiffer(s, t) && DeletedFrom(s.tokens.colors, t.tokens.colors, ColorId, key)
  {
    if prev.None? then prev
    else Some(WithColors(prev.value, DeleteById(prev.value.tokens.colors, ColorId, key)))
  }

  /** The updater of `handleTypographyEdit`, in the same way for the typography list. */
  function EditTypography(prev: Option<ExtractedStyles>, key: string, u: TypographyUpdate): (next: Option<ExtractedStyles>)
    ensures next.Some? <==> prev.Some?
    ensures prev.Some? ==>
      var s, t := prev.value, next.value;
      && OnlyTypographyDiffers(s, t)
      && |t.tokens.typography| == |s.tokens.typography|
      && forall i :: 0 <= i < |s.tokens.typography| ==>
        t.tokens.typography[i] == if s.tokens.typography[i].id == key then MergeTypography(s.tokens.typography[i], u) else s.tokens.typography[i]
  {
    if prev.None? then prev
    else Some(WithTypography(prev.value, EditById(prev.value.tokens.typography, TypographyId, key, TypographyMerger(u))))
  }

  /** The updater of `handleTypographyDelete`. */
  function DeleteTypography(prev: Option<ExtractedStyles>, key: string): (next: Option<ExtractedStyles>)
    ensures next.Some? <==> prev.Some?
    ensures prev.Some? ==>
      var s, t := prev.value, next.value;
      OnlyTypographyDiffers(s, t) && DeletedFrom(s.tokens.typography, t.tokens.typography, TypographyId, key)
  {
    if prev.None? then prev
    else Some(WithTypography(prev.value, DeleteById(prev.value.tokens.typography, TypographyId, key)))
  }

  /** The updater of `handleComponentEdit`: the components are edited item by item; the
      tokens and the rest of the record are unchanged. */
  function EditComponent(prev: Option<ExtractedStyles>, key: string, u: ComponentUpdate): (next: Option<ExtractedStyles>)
    ensures next.Some? <==> prev.Some?
    ensures prev.Some? ==>
      var s, t := prev.value, next.value;
      && OnlyComponentsDiffer(s, t)
      && |t.components| == |s.components|
      && forall i :: 0 <= i < |s.components| ==>
        t.components[i] == if s.components[i].id == key then MergeComponent(s.components[i], u) else s.components[i]
  {
    if prev.None? then prev
    else Some(prev.value.(components := EditById(prev.value.components, ComponentId, key, ComponentMerger(u))))
  }

  /** The updater of `handleComponentDelete`. */
  function DeleteComponent(prev: Option<ExtractedStyles>, key: string): (next: Option<ExtractedStyles>)
    ensures next.Some? <==> prev.Some?
    ensures prev.Some? ==>
      var s, t := prev.value, next.value;
      OnlyComponentsDiffer(s, t) && DeletedFrom(s.components, t.components, ComponentId, key)
  {
    if prev.None? then prev
    else Some(prev.value.(components := DeleteById(prev.value.components, ComponentId, key)))
  }

  /** An id that no colour carries leaves the state as it was, for an edit
      and for a delete alike. */
  lemma AbsentColorId(s: ExtractedStyles, key: string, u: ColorUpdate)
    requires forall i :: 0 <= i < |s.tokens.colors| ==> s.tokens.colors[i].id != key
    ensures EditColor(Some(s), key, u) == Some(s)
    ensures DeleteColor(Some(s), key) == Some(s)
  {
    EditAbsent(s.tokens.colors, ColorId, key, ColorMerger(u));
    DeleteAbsent(s.tokens.colors, ColorId, key);
  }

  lemma AbsentTypographyId(s: ExtractedStyles, key: string, u: TypographyUpdate)
    requires forall i :: 0 <= i < |s.tokens.typography| ==> s.tokens.typography[i].id != key
    ensures EditTypography(Some(s), key, u) == Some(s)
    ensures DeleteTypography(Some(s), key) == Some(s)
  {
    EditAbsent(s.tokens.typography, TypographyId, key, TypographyMerger(u));
    DeleteAbsent(s.tokens.typography, TypographyId, key);
  }

  lemma AbsentComponentId(s: ExtractedStyles, key: string, u: ComponentUpdate)
    requires forall i :: 0 <= i < |s.components| ==> s.components[i].id != key
    ensures EditComponent(Some(s), key, u) == Some(s)
    ensures DeleteComponent(Some(s), key) == Some(s)
  {
    EditAbsent(s.components, ComponentId, key, ComponentMerger(u));
    DeleteAbsent(s.components, ComponentId, key);
  }

  function HexOnly(hex: string): ColorUpdate
  {
    ColorUpdate(None, None, Some(hex), None, None, None, None)
  }

  /** Editing a colour's hex does not recompute its rgb and hsl strings. */
  lemma HexEditKeepsDerived(s: ExtractedStyles, key: string, hex: string)
    ensures var t := EditColor(Some(s), key, HexOnly(hex)).value;
      && |t.tokens.colors| == |s.tokens.colors|
      && forall i :: 0 <= i < |s.tokens.colors| ==>
        && t.tokens.colors[i].rgb == s.tokens.colors[i].rgb
        && t.tokens.colors[i].hsl == s.tokens.colors[i].hsl
        && t.tokens.colors[i].hex == (if s.tokens.colors[i].id == key then hex else s.tokens.colors[i].hex)
  {
  }

  // ---------------------------------------------------------------------
  // Selection, tolerances, the extraction record
  // ---------------------------------------------------------------------

  /** The selection after deleting the component with the given id. */
  function SelectionAfterDelete(selected: Option<ComponentSpec>, key: string): (r: Option<ComponentSpec>)
    ensures r.None? <==> selected.None? || selected.value.id == key
    ensures r.Some? ==> r == selected
  {
    if selected.Some? && selected.value.id == key then None else selected
  }

  datatype ToleranceKey = ColorTolerance | SpacingTolerance | TypographyTolerance | BorderRadiusTolerance

  /** settings[key]. */
  function ToleranceOf(t: ToleranceSettings, key: ToleranceKey): int
  {
    match key
    case ColorTolerance => t.color
    case SpacingTolerance => t.spacing
    case TypographyTolerance => t.typography
    case BorderRadiusTolerance => t.borderRadius
  }

  /** `{ ...prev, [key]: value }`. */
  function ChangeTolerance(t: ToleranceSettings, key: ToleranceKey, value: int): (r: ToleranceSettings)
    ensures ToleranceOf(r, key) == value
    ensures forall k :: k != key ==> ToleranceOf(r, k) == ToleranceOf(t, k)
  {
    match key
    case ColorTolerance => t.(color := value)
    case SpacingTolerance => t.(spacing := value)
    case TypographyTolerance => t.(typography := value)
    case BorderRadiusTolerance => t.(borderRadius := value)
  }

  /** Settings agree exactly when they agree on every key. */
  lemma ToleranceExtensional(t: ToleranceSettings, t': ToleranceSettings)
    requires forall k :: ToleranceOf(t, k) == ToleranceOf(t', k)
    ensures t == t'
  {
    assert ToleranceOf(t, ColorTolerance) == ToleranceOf(t', ColorTolerance);
    assert ToleranceOf(t, SpacingTolerance) == ToleranceOf(t', SpacingTolerance);
    assert ToleranceOf(t, TypographyTolerance) == ToleranceOf(t', TypographyTolerance);
    assert ToleranceOf(t, BorderRadiusTolerance) == ToleranceOf(t', BorderRadiusTolerance);
  }

  /** Setting a key twice keeps the last value; setting different keys
      commutes. */
  lemma ToleranceChanges(t: ToleranceSettings, k1: ToleranceKey, v1: int, k2: ToleranceKey, v2: int)
    ensures k1 == k2 ==> ChangeTolerance(ChangeTolerance(t, k1, v1), k2, v2) == ChangeTolerance(t, k2, v2)
    ensures k1 != k2 ==>
      ChangeTolerance(ChangeTolerance(t, k1, v1), k2, v2) == ChangeTolerance(ChangeTolerance(t, k2, v2), k1, v1)
  {
    var a := ChangeTolerance(ChangeTolerance(t, k1, v1), k2, v2);
    if k1 == k2 {
      ToleranceExtensional(a, ChangeTolerance(t, k2, v2));
    } else {
      ToleranceExtensional(a, ChangeTolerance(ChangeTolerance(t, k2, v2), k1, v1));
    }
  }

  /** The record built from one analysis. The clock is read twice, in
      milliseconds: idClock names the record and dateClock dates it. */
  function AssembleExtraction(analysis: AnalysisResult, imageUrl: string, tolerances: ToleranceSettings,
                              idClock: int, dateClock: int)
    : (r: ExtractedStyles)
    ensures r.components == analysis.detectedComponents && r.tokens == analysis.suggestedTokens
    ensures r.sourceImage == imageUrl && r.metadata.imageUrl == imageUrl
    ensures r.metadata.imageDimensions == Dimensions(0, 0) && r.metadata.viewport == Desktop
    ensures r.metadata.tolerances == tolerances
    ensures r.metadata.extractedAt == dateClock
  {
    ExtractedStyles("extraction-" + IntToString(idClock), imageUrl, analysis.detectedComponents,
      analysis.suggestedTokens, Metadata(dateClock, imageUrl, Dimensions(0, 0), Desktop, tolerances))
  }

  /** Extractions named at different clock readings get different ids. */
  lemma ExtractionIdsDistinct(a: AnalysisResult, b: AnalysisResult, url: string, url': string,
                              t: ToleranceSettings, t': ToleranceSettings, m: nat, n: nat, d: int, d': int)
    requires m != n
    ensures AssembleExtraction(a, url, t, m, d).id != AssembleExtraction(b, url', t', n, d').id
  {
    NatToStringInjective(m, n);
    var p := "extraction-";
    assert (p + NatToString(m))[|p|..] == NatToString(m);
    assert (p + NatToString(n))[|p|..] == NatToString(n);
  }
}
