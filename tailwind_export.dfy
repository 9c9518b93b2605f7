/** generateTailwindOutput: a config object whose theme.extend receives
    four dictionaries keyed by slug when tokens are included. The JSON text
    that wraps it is not modelled; the config is. */
module TailwindExport {
  import opened Types
  import opened Strings
  import opened Slugs
  import opened ExportLines

  datatype Extend = Extend(
    colors: Option<map<string, string>>,
    fontFamily: Option<map<string, seq<string>>>,
    fontSize: Option<map<string, string>>,
    spacing: Option<map<string, string>>)

  datatype Theme = Theme(extend: Extend)

  datatype TailwindConfig = TailwindConfig(theme: Theme)

  const EmptyExtend := Extend(None, None, None, None)

  // ---------------------------------------------------------------------
  // Filling a dictionary: `dict[key(x)] = value(x)` for each x in turn
  // ---------------------------------------------------------------------

  /** The dictionary holds at most one key per item, and some key exactly
      when there are items. */
  function Assign<T, V>(xs: seq<T>, key: T -> string, value: T -> V): (dict: map<string, V>)
    ensures |dict| <= |xs|
    ensures dict == map[] <==> xs == []
    decreases |xs|
  {
    if xs == [] then map[]
    else Assign(xs[..|xs| - 1], key, value)[key(xs[|xs| - 1]) := value(xs[|xs| - 1])]
  }

  /** One more item sets one more key. */
  lemma AssignStep<T, V>(xs: seq<T>, key: T -> string, value: T -> V, i: nat)
    requires i < |xs|
    ensures Assign(xs[..i + 1], key, value) == Assign(xs[..i], key, value)[key(xs[i]) := value(xs[i])]
  {
    assert xs[..i + 1][..i] == xs[..i];
  }

  /** The keys are exactly the keys of the elements. */
  lemma {:induction false} AssignDomain<T, V>(xs: seq<T>, key: T -> string, value: T -> V, k: string)
    ensures k in Assign(xs, key, value) <==> exists i :: 0 <= i < |xs| && key(xs[i]) == k
    decreases |xs|
  {
    if xs != [] {
      var init := xs[..|xs| - 1];
      AssignDomain(init, key, value, k);
      if k in Assign(init, key, value) {
        var i :| 0 <= i < |init| && key(init[i]) == k;
        assert key(xs[i]) == k;
      }
      if exists i :: 0 <= i < |xs| && key(xs[i]) == k {
        var i :| 0 <= i < |xs| && key(xs[i]) == k;
        if i < |init| {
          assert key(init[i]) == k;
        }
      }
    }
  }

  /** A key holds the value of the last element with that key: later
      elements overwrite earlier ones. */
  lemma {:induction false} AssignLastWins<T, V>(xs: seq<T>, key: T -> string, value: T -> V, i: nat)
    requires i < |xs|
    requires forall j :: i < j < |xs| ==> key(xs[j]) != key(xs[i])
    ensures key(xs[i]) in Assign(xs, key, value)
    ensures Assign(xs, key, value)[key(xs[i])] == value(xs[i])
    decreases |xs|
  {
    if i < |xs| - 1 {
      var init := xs[..|xs| - 1];
      assert init[i] == xs[i];
      assert forall j :: i < j < |init| ==> init[j] == xs[j];
      AssignLastWins(init, key, value, i);
    }
  }

  // ---------------------------------------------------------------------
  // The four dictionaries
  // ---------------------------------------------------------------------

  function ColorKey(c: ColorToken): string { Slug(c.name) }

  function ColorValue(c: ColorToken): string { c.hex }

  function FontKey(t: TypographyToken): string { Slug(t.name) }

  /** The family string split at each comma, each part trimmed. */
  function FamilyList(family: string): (list: seq<string>)
    ensures |list| == |Split(family, ',')|
    ensures forall i :: 0 <= i < |list| ==> list[i] == Trim(Split(family, ',')[i])
  {
    var parts := Split(family, ',');
    seq(|parts|, i requires 0 <= i < |parts| => Trim(parts[i]))
  }

  function FontFamilyValue(t: TypographyToken): seq<string> { FamilyList(t.fontFamily) }

  function FontSizeValue(t: TypographyToken): string { PxText(t.fontSize) }

  function SpacingKey(s: SpacingToken): string { Slug(s.name) }

  /** The value immediately followed by its unit. */
  function SpacingValue(s: SpacingToken): string { IntToString(s.value) + UnitText(s.unit) }

  /** The config the exporter builds: an empty extend without tokens, the
      four dictionaries with them; components are never read. */
  function ConfigOf(styles: ExtractedStyles, format: ExportFormat): (config: TailwindConfig)
    ensures config.theme.extend == EmptyExtend <==> !format.includeTokens
    ensures var e, t := config.theme.extend, styles.tokens;
      format.includeTokens ==>
        && e.colors.Some? && |e.colors.value| <= |t.colors|
        && e.fontFamily.Some? && |e.fontFamily.value| <= |t.typography|
        && e.fontSize.Some? && |e.fontSize.value| <= |t.typography|
        && e.spacing.Some? && |e.spacing.value| <= |t.spacing|
  {
    var t := styles.tokens;
    if !format.includeTokens then TailwindConfig(Theme(EmptyExtend))
    else TailwindConfig(Theme(Extend(
      Some(Assign(t.colors, ColorKey, ColorValue)),
      Some(Assign(t.typography, FontKey, FontFamilyValue)),
      Some(Assign(t.typography, FontKey, FontSizeValue)),
      Some(Assign(t.spacing, SpacingKey, SpacingValue)))))
  }

  // ---------------------------------------------------------------------
  // generateTailwindOutput, filling the dictionaries in place
  // ---------------------------------------------------------------------

  /** `colors[slug] = color.hex` for each colour. */
  method ColorDictionary(tokens: seq<ColorToken>) returns (colors: map<string, string>)
    ensures colors == Assign(tokens, ColorKey, ColorValue)
  {
    colors := map[];
    var i := 0;
    while i < |tokens|
      invariant 0 <= i <= |tokens|
      invariant colors == Assign(tokens[..i], ColorKey, ColorValue)
    {
      AssignStep(tokens, ColorKey, ColorValue, i);
      colors := colors[Slug(tokens[i].name) := tokens[i].hex];
      i := i + 1;
    }
    assert tokens[..i] == tokens;
  }

  /** Both font dictionaries in one pass, keyed by the same slug. */
  method FontDictionaries(tokens: seq<TypographyToken>) returns (fontFamily: map<string, seq<string>>, fontSize: map<string, string>)
    ensures fontFamily == Assign(tokens, FontKey, FontFamilyValue)
    ensures fontSize == Assign(tokens, FontKey, FontSizeValue)
  {
    fontFamily, fontSize := map[], map[];
    var i := 0;
    while i < |tokens|
      invariant 0 <= i <= |tokens|
      invariant fontFamily == Assign(tokens[..i], FontKey, FontFamilyValue)
      invariant fontSize == Assign(tokens[..i], FontKey, FontSizeValue)
    {
      AssignStep(tokens, FontKey, FontFamilyValue, i);
      AssignStep(tokens, FontKey, FontSizeValue, i);
      var typo := tokens[i];
      var name := Slug(typo.name);
      fontFamily := fontFamily[name := FamilyList(typo.fontFamily)];
      fontSize := fontSize[name := PxText(typo.fontSize)];
      i := i + 1;
    }
    assert tokens[..i] == tokens;
  }

  /** `spacing[slug] = value + unit` for each spacing token. */
  method SpacingDictionary(tokens: seq<SpacingToken>) returns (spacing: map<string, string>)
    ensures spacing == Assign(tokens, SpacingKey, SpacingValue)
  {
    spacing := map[];
    var i := 0;
    while i < |tokens|
      invariant 0 <= i <= |tokens|
      invariant spacing == Assign(tokens[..i], SpacingKey, SpacingValue)
    {
      AssignStep(tokens, SpacingKey, SpacingValue, i);
      spacing := spacing[Slug(tokens[i].name) := IntToString(tokens[i].value) + UnitText(tokens[i].unit)];
      i := i + 1;
    }
    assert tokens[..i] == tokens;
  }

  method GenerateTailwind(styles: ExtractedStyles, format: ExportFormat) returns (config: TailwindConfig)
    ensures config == ConfigOf(styles, format)
    ensures !format.includeTokens ==> config.theme.extend == EmptyExtend
    ensures format.includeTokens ==>
      var e := config.theme.extend;
      e.colors.Some? && e.fontFamily.Some? && e.fontSize.Some? && e.spacing.Some?
  {
    var extend := EmptyExtend;
    if format.includeTokens {
      var t := styles.tokens;
      var colors := ColorDictionary(t.colors);
      extend := extend.(colors := Some(colors));
      var fontFamily, fontSize := FontDictionaries(t.typography);
      extend := extend.(fontFamily := Some(fontFamily), fontSize := Some(fontSize));
      var spacing := SpacingDictionary(t.spacing);
      extend := extend.(spacing := Some(spacing));
    }
    config := TailwindConfig(Theme(extend));
  }

  // ---------------------------------------------------------------------
  // Properties of the config
  // ---------------------------------------------------------------------

  /** The colour keys are the slugs of the colour names, and each holds the
      hex of the last colour with that slug. */
  lemma ColorEntries(styles: ExtractedStyles, format: ExportFormat)
    requires format.includeTokens
    ensures var colors := ConfigOf(styles, format).theme.extend.colors;
      var cs := styles.tokens.colors;
      && colors.Some?
      && (forall k :: k in colors.value <==> exists i :: 0 <= i < |cs| && Slug(cs[i].name) == k)
      && (forall i :: 0 <= i < |cs| && (forall j :: i < j < |cs| ==> Slug(cs[j].name) != Slug(cs[i].name)) ==>
            Slug(cs[i].name) in colors.value && colors.value[Slug(cs[i].name)] == cs[i].hex)
  {
    var cs := styles.tokens.colors;
    forall k ensures k in Assign(cs, ColorKey, ColorValue) <==> exists i :: 0 <= i < |cs| && Slug(cs[i].name) == k {
      AssignDomain(cs, ColorKey, ColorValue, k);
    }
    forall i | 0 <= i < |cs| && (forall j :: i < j < |cs| ==> Slug(cs[j].name) != Slug(cs[i].name))
      ensures Slug(cs[i].name) in Assign(cs, ColorKey, ColorValue) && Assign(cs, ColorKey, ColorValue)[Slug(cs[i].name)] == cs[i].hex
    {
      AssignLastWins(cs, ColorKey, ColorValue, i);
    }
  }

  /** Two colours whose names have the same slug leave one key, holding the
      later hex. */
  lemma ColorCollision(a: ColorToken, b: ColorToken)
    requires Slug(a.name) == Slug(b.name)
    ensures Assign([a, b], ColorKey, ColorValue) == map[Slug(b.name) := b.hex]
  {
    assert [a, b][..1] == [a];
    assert [a][..0] == [];
    assert Assign([a], ColorKey, ColorValue) == map[][Slug(a.name) := a.hex];
    assert Assign([a, b], ColorKey, ColorValue) == map[Slug(a.name) := a.hex][Slug(b.name) := b.hex];
  }

  /** Each typography key holds, for the last token with that slug, the
      comma-split and trimmed family list and the size in px. */
  lemma FontEntries(styles: ExtractedStyles, format: ExportFormat, i: nat)
    requires format.includeTokens
    requires i < |styles.tokens.typography|
    requires forall j :: i < j < |styles.tokens.typography| ==>
      Slug(styles.tokens.typography[j].name) != Slug(styles.tokens.typography[i].name)
    ensures var e := ConfigOf(styles, format).theme.extend;
      var t := styles.tokens.typography[i];
      && e.fontFamily.Some? && e.fontSize.Some?
      && Slug(t.name) in e.fontFamily.value && e.fontFamily.value[Slug(t.name)] == FamilyList(t.fontFamily)
      && Slug(t.name) in e.fontSize.value && e.fontSize.value[Slug(t.name)] == IntToString(t.fontSize) + "px"
  {
    var ty := styles.tokens.typography;
    AssignLastWins(ty, FontKey, FontFamilyValue, i);
    AssignLastWins(ty, FontKey, FontSizeValue, i);
  }

  /** Both font dictionaries have the same keys: the slugs of the
      typography names. */
  lemma FontKeys(styles: ExtractedStyles, format: ExportFormat, k: string)
    requires format.includeTokens
    ensures var e := ConfigOf(styles, format).theme.extend;
      var ty := styles.tokens.typography;
      && e.fontFamily.Some? && e.fontSize.Some?
      && (k in e.fontFamily.value <==> k in e.fontSize.value)
      && (k in e.fontFamily.value <==> exists i :: 0 <= i < |ty| && Slug(ty[i].name) == k)
  {
    var ty := styles.tokens.typography;
    AssignDomain(ty, FontKey, FontFamilyValue, k);
    AssignDomain(ty, FontKey, FontSizeValue, k);
  }

  /** The family list has one entry per comma-separated part, each without
      a comma and without surrounding white space; the parts, joined back
      with commas, give the original string. */
  lemma FamilyListParts(family: string)
    ensures |FamilyList(family)| == multiset(family)[','] + 1
    ensures forall i :: 0 <= i < |FamilyList(family)| ==>
      var f := FamilyList(family)[i];
      ',' !in f && (f == [] || (!IsSpace(f[0]) && !IsSpace(f[|f| - 1])))
    ensures Join(Split(family, ','), ',') == family
  {
    SplitParts(family, ',');
    JoinSplit(family, ',');
    var parts := Split(family, ',');
    forall i | 0 <= i < |parts| ensures ',' !in Trim(parts[i]) {
      var a: nat, b: nat :| a <= b <= |parts[i]| && Trim(parts[i]) == parts[i][a..b];
    }
  }

  /** The spacing keys are the slugs of the spacing names; a key's value is
      the number of the last token with that slug followed by its unit. */
  lemma SpacingEntries(styles: ExtractedStyles, format: ExportFormat, i: nat)
    requires format.includeTokens
    requires i < |styles.tokens.spacing|
    requires forall j :: i < j < |styles.tokens.spacing| ==>
      Slug(styles.tokens.spacing[j].name) != Slug(styles.tokens.spacing[i].name)
    ensures var e := ConfigOf(styles, format).theme.extend;
      var s := styles.tokens.spacing[i];
      && e.spacing.Some?
      && Slug(s.name) in e.spacing.value
      && e.spacing.value[Slug(s.name)] == IntToString(s.value) + UnitText(s.unit)
  {
    AssignLastWins(styles.tokens.spacing, SpacingKey, SpacingValue, i);
  }

  /** The include-components switch and the component list have no effect. */
  lemma IgnoresComponents(styles: ExtractedStyles, format: ExportFormat, components: seq<ComponentSpec>, flag: bool)
    ensures ConfigOf(styles.(components := components), format.(includeComponents := flag)) == ConfigOf(styles, format)
  {
  }
}
