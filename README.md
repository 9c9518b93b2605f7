# Style extractor core, modelled in Dafny

The style extractor reads a screenshot of a user interface and builds
design tokens from it: colours, typography and spacing. It also reports
detected components and exports all of this as JSON, CSS, SCSS or a
Tailwind configuration. This project models the deterministic core of that
program and proves properties of the model:

- **Colour analyser** (`color_analyzer.dfy`, `color_quantizer.dfy`):
  - hex rendering and parsing;
  - RGB to HSL over exact rationals;
  - the colour-naming and usage rule tables;
  - the quantizer: a strided scan of an RGBA byte buffer, a frequency
    count in insertion order, a stable sort by frequency, and truncation to
    twenty tokens.
- **Component detector** (`component_detector.dfy`): the three-rule
  first-match geometric classifier and the three fixed boxes the
  shape finder reports.
- **Exporters** (`slug.dfy`, `export_lines.dfy`, `css_export.dfy`,
  `scss_export.dfy`, `tailwind_export.dfy`, `style_export.dfy`):
  - the name slug;
  - the CSS and SCSS generators, as methods that append lines in loops;
  - the Tailwind generator, which fills dictionaries in loops;
  - the choice of keys in the JSON document;
  - the preview dispatch.
- **Application updates** (`app_state.dfy`):
  - copy-on-write edit and delete by id of colour, typography and
    component records;
  - the selection after a delete;
  - the tolerance update;
  - the record assembled from one analysis.

**How CSS and SCSS properties are stated.** The generated text is modelled
as a sequence of lines, each followed by a newline (`Strings.Lines`). Each
line has a kind, read off its prefix (`ExportLines.KindOf`). For example, a
line starting with `  --color-` is a colour variable line. One lemma per
kind then states which lines of that kind the output holds, how many, and
in what order.
These lemmas count the pieces the generators append, each followed by a
newline. They are the newline-separated lines of the text exactly when no
name, hex, font family or id holds a newline; with `"\n:root {"` as a hex,
for example, the text has a `:root {` line that no lemma counts.

**Numbers.** Sizes, frequencies and tolerances are modelled as integers.
RGB to HSL uses Dafny `real`, and `Math.round` is `floor(x + 1/2)`.

**Where the code and its written description differ, the model follows
the code:**

- The shape finder has no edge detector or region grower. It pushes three
  fixed boxes.
- The classifier has three rules (button, card, input), not a longer table
  with navbar, modal and list.
  - As a result, the box 800×60 is `other` in the code, wherever it sits:
    60 is neither below 60 nor below 50.
  - A box with ratio exactly 2 and height 59 is `other`, not `button`,
    because the ratio test is strict.
- Per-region colour sampling, state inference and the region style sampler
  are absent from the code.
- Component state sets are always absent (`states` is `None`).
- The sampled-pixel count is the same as described: `floor(len / 40000)`
  bytes over four channels is `floor(pixels / 10000)`.

## Model

| member | source | states |
|---|---|---|
| ColorAnalyzer.RgbToHex | src/utils/styleExtractor.ts:50-52 | the hex is `#` followed by the two lower-case digits of r, g and b: seven characters, the last six lower-case hex digits |
| ColorAnalyzer.Base16OfRgb | src/utils/styleExtractor.ts:51 | the base-16 text of 2^24 + r·2^16 + g·2^8 + b is `1` followed by the six digits, so `.slice(1)` keeps exactly those six |
| ColorAnalyzer.ParseHex | src/utils/styleExtractor.ts:55 | a match exists exactly when the string is an optional `#` and six hex digits of either case |
| ColorAnalyzer.HexToRgb | src/utils/styleExtractor.ts:54-61 | a string that does not match the pattern reads as black |
| ColorAnalyzer.HexRoundTrip | src/utils/styleExtractor.ts:50-61 | hexToRgb(rgbToHex(r, g, b)) is (r, g, b) for every byte triple |
| ColorAnalyzer.RgbToHexInjective | src/utils/styleExtractor.ts:50-52 | distinct channel triples render to distinct hexes |
| ColorAnalyzer.HexToRgbIgnoresCase | src/utils/styleExtractor.ts:55 | lower-casing the input does not change the parsed colour |
| ColorAnalyzer.HexToRgbOptionalHash | src/utils/styleExtractor.ts:55 | a leading `#` does not change the parsed colour |
| ColorAnalyzer.MalformedHexIsBlack | src/utils/styleExtractor.ts:55-60 | any string whose length is neither 6 nor 7 reads as (0, 0, 0) |
| ColorAnalyzer.HueSextant | src/utils/styleExtractor.ts:78-82 | the hue before scaling lies in [0, 6] in every branch of the switch |
| ColorAnalyzer.RgbToHsl | src/utils/styleExtractor.ts:63-91 | h is in 0..360 and s and l in 0..100; equal channels give h = s = 0 and l = round(100·r/255) |
| ColorAnalyzer.Hue360Reachable | src/utils/styleExtractor.ts:84-88 | rgb(255, 0, 1) has hue 360 |
| ColorAnalyzer.HueIndex | src/utils/styleExtractor.ts:123 | for h in 0..360, round(h / 60) is (h + 30) div 60 |
| ColorAnalyzer.GenerateColorName | src/utils/styleExtractor.ts:95-108 | a hex found in the eight-entry table, after lower-casing, is named by the table |
| ColorAnalyzer.NameByHue | src/utils/styleExtractor.ts:123-129 | with s ≥ 10 and h < 330, the name is the sextant's hue name followed by the lightness suffix |
| ColorAnalyzer.LastSextantIsGray | src/utils/styleExtractor.ts:123-125 | with s ≥ 10 and h ≥ 330, the index 6 falls off the hue list and the name starts with `gray-` |
| ColorAnalyzer.GrayRampIsGray | src/utils/styleExtractor.ts:114-121 | every name of the grayscale ramp starts with `gray-` |
| ColorAnalyzer.NameGrayExactly | src/utils/styleExtractor.ts:114-129 | off the table, a name starts with `gray-` exactly when s < 10 or h ≥ 330 |
| ColorAnalyzer.ColorNameByHue | src/utils/styleExtractor.ts:106-129 | a hex missing from the table, with s ≥ 10 and h < 330, is named by hue sextant and lightness |
| ColorAnalyzer.ColorNameGrayExactly | src/utils/styleExtractor.ts:94-130 | a colour name starts with `gray-` exactly when the table misses and (s < 10 or h ≥ 330) |
| ColorAnalyzer.InferColorUsage | src/utils/styleExtractor.ts:132-146 | the usage is never `shadow` |
| ColorAnalyzer.UsageRules | src/utils/styleExtractor.ts:132-146 | each of background, text, border and other holds exactly when its rule is the first to match, with brightness compared as the integer 299r + 587g + 114b against 200000 and 100000 |
| ColorQuantizer.SampleRate | src/utils/styleExtractor.ts:14 | the sample rate is at least 1 |
| ColorQuantizer.Step | src/utils/styleExtractor.ts:16 | the scan advances by a positive multiple of 4 bytes |
| ColorQuantizer.SampledStep | src/utils/styleExtractor.ts:16-26 | one step of the scan samples the pixel at the offset when it is opaque, then continues one stride further |
| ColorQuantizer.OffsetsAreMultiples | src/utils/styleExtractor.ts:16 | the i-th visited offset is the start plus i strides |
| ColorQuantizer.OffsetsCover | src/utils/styleExtractor.ts:16 | on a buffer of whole pixels, the scan visits some pixel exactly when it starts inside the buffer, and every visited offset is a pixel boundary |
| ColorQuantizer.SampledComplete | src/utils/styleExtractor.ts:16-25 | every opaque pixel at a visited offset is sampled |
| ColorQuantizer.SampledSound | src/utils/styleExtractor.ts:16-25 | every sampled hex is the colour of an opaque pixel at a visited offset |
| ColorQuantizer.TransparentSamplesNothing | src/utils/styleExtractor.ts:22 | a buffer whose alpha bytes are all below 128 samples nothing |
| ColorQuantizer.Tally | src/utils/styleExtractor.ts:25 | no more distinct colours than samples, and none exactly when nothing was sampled |
| ColorQuantizer.TallyKeys | src/utils/styleExtractor.ts:25 | the map's keys are the sampled hexes, each listed once |
| ColorQuantizer.TallyFrequencies | src/utils/styleExtractor.ts:25 | each key's count is its number of occurrences in the sample |
| ColorQuantizer.TallyFirstSeen | src/utils/styleExtractor.ts:25 | keys are in order of first occurrence, as Map insertion order keeps them |
| ColorQuantizer.TallyCounts | src/utils/styleExtractor.ts:25 | the map holds exactly the distinct sampled hexes, in first-seen order, with their counts |
| ColorQuantizer.Insert | src/utils/styleExtractor.ts:30 | insertion adds exactly the one entry |
| ColorQuantizer.SortByFrequency | src/utils/styleExtractor.ts:29-30 | the sort is a permutation |
| ColorQuantizer.SortRanked | src/utils/styleExtractor.ts:30 | the sort is stable and by descending frequency: entries in ascending key order come out by descending frequency, ties in key order |
| ColorQuantizer.Top20 | src/utils/styleExtractor.ts:31 | the result is a prefix of at most 20 entries, and the whole list when it is no longer |
| ColorQuantizer.ToTokens | src/utils/styleExtractor.ts:33-47 | one token per entry |
| ColorQuantizer.CountColors | src/utils/styleExtractor.ts:14-26 | the scan loop's map equals the tally of the sampled opaque pixels |
| ColorQuantizer.ExtractColors | src/utils/styleExtractor.ts:5-47 | with a context the result is the palette of the bytes, without one it is empty; at most 20 colours; `tolerance` plays no part |
| ColorQuantizer.EntriesOfTally | src/utils/styleExtractor.ts:29 | the entries list each sampled colour once, with its number of occurrences |
| ColorQuantizer.SortKeepsEntries | src/utils/styleExtractor.ts:29-30 | sorting neither adds nor drops entries |
| ColorQuantizer.RankedMembers | src/utils/styleExtractor.ts:29-30 | each ranked entry is a sampled colour with its count |
| ColorQuantizer.RankedCovers | src/utils/styleExtractor.ts:29-30 | every sampled colour has a ranked entry |
| ColorQuantizer.RankedOrder | src/utils/styleExtractor.ts:29-30 | ranked entries go by descending frequency, ties in first-seen order |
| ColorQuantizer.Palette | src/utils/styleExtractor.ts:29-47 | at most 20 tokens and no more than samples; some token whenever something was sampled |
| ColorQuantizer.PaletteFields | src/utils/styleExtractor.ts:33-47 | each token has id `color-<index>`, a sampled hex with its count as frequency, and name, rgb, hsl and usage derived from the hex |
| ColorQuantizer.PaletteOrder | src/utils/styleExtractor.ts:29-47 | hexes are pairwise distinct, frequencies non-increasing, ties in first-seen order |
| ColorQuantizer.PaletteKeepsMostFrequent | src/utils/styleExtractor.ts:29-31 | a sampled colour is missing only when twenty colours at least as frequent are reported |
| ColorQuantizer.TallyTwoPairs | src/utils/styleExtractor.ts:25 | two colours seen twice each are counted in the order of first sighting |
| ColorQuantizer.SortTie | src/utils/styleExtractor.ts:30 | equal frequencies keep their order through the sort |
| ColorQuantizer.TwoByTwoExample | src/utils/styleExtractor.ts:5-47 | white, white, black, black gives [white f=2 usage other, black f=2 usage text] with ids color-0 and color-1 |
| ComponentDetector.AspectRatio | src/utils/styleExtractor.ts:204 | width / height is the exact quotient for a non-zero height, and ±Infinity or NaN for a zero one |
| ComponentDetector.InferComponentType | src/utils/styleExtractor.ts:203-222 | the type is one of button, card, input and other |
| ComponentDetector.RatioVersus | src/utils/styleExtractor.ts:204-217 | for a positive height, comparing the ratio with a / b is comparing cross products |
| ComponentDetector.ClassifyWithoutDivision | src/utils/styleExtractor.ts:203-222 | for a positive height, each type holds exactly when its first-match rule, written without division, holds |
| ComponentDetector.InputIsVeryWide | src/utils/styleExtractor.ts:207-219 | input needs a ratio of at least 8 (or an infinite one) and a height below 50 |
| ComponentDetector.ZeroHeight | src/utils/styleExtractor.ts:203-222 | a zero height gives input for a positive width and other otherwise |
| ComponentDetector.FindRectangularShapes | src/utils/styleExtractor.ts:189-201 | the three fixed boxes, whatever the canvas size |
| ComponentDetector.ComponentFor | src/utils/styleExtractor.ts:162-181 | the record's type is the classification of its box, and the box is kept |
| ComponentDetector.DetectComponents | src/utils/styleExtractor.ts:151-187 | no context gives no components; otherwise one record per fixed box, in order |
| ComponentDetector.MockKinds | src/utils/styleExtractor.ts:196-198 | the three boxes classify as button, card and input |
| ComponentDetector.DetectedShape | src/utils/styleExtractor.ts:163-181 | measurements copy the box size, padding and margin are zero, style lists are empty, no states |
| ComponentDetector.DetectedNames | src/utils/styleExtractor.ts:164-166 | ids are component-0..2 and names Component 1..3 |
| ComponentDetector.DetectedIdsDistinct | src/utils/styleExtractor.ts:164 | distinct positions give distinct ids |
| Slugs.CollapseSpace | src/components/StyleExport.tsx:80 | the result has no white space, and each character is `-` or one of the input's |
| Slugs.Slug | src/components/StyleExport.tsx:80 | a slug holds no white space and no upper-case letter |
| Slugs.CollapseRun | src/components/StyleExport.tsx:80 | a maximal run of white space becomes a single `-` |
| Slugs.SlugIdempotent | src/components/StyleExport.tsx:122 | the slug of a slug is the slug itself |
| Slugs.SlugOfTwoWords | src/components/StyleExport.tsx:172 | two lower-case words around one space give the words joined by `-` |
| ExportLines.RuleBox | src/components/StyleExport.tsx:101-103 | a rule body has three box declarations: width, height and four-value padding |
| ExportLines.RuleBoxText | src/components/StyleExport.tsx:101-103 | the three declarations read `  width: <w>px;`, `  height: <h>px;` and `  padding: <t>px <r>px <b>px <l>px;` |
| ExportLines.RuleOpens | src/components/StyleExport.tsx:100-103 | every rule starts with its selector line and those three box lines |
| ExportLines.Emit | src/components/StyleExport.tsx:76 | appending pieces, each followed by a newline, extends the text by those lines |
| ExportLines.EmitEach | src/components/StyleExport.tsx:79-81 | a forEach that appends f(x) for each x adds the lines of each element in turn |
| ExportLines.EmitRule | src/components/StyleExport.tsx:100-109 | one rule: selector, box, background lines when there is a colour, closing lines |
| CssExport.FontVars | src/components/StyleExport.tsx:84-88 | three custom properties per typography token |
| CssExport.EmitRoot | src/components/StyleExport.tsx:75-96 | the `:root` block: the opening line, colours, typography, spacing, closing lines |
| CssExport.EmitRules | src/components/StyleExport.tsx:98-111 | one rule per component, in order |
| CssExport.GenerateCss | src/components/StyleExport.tsx:72-114 | the output is the lines of the model; with neither tokens nor components it is the empty string |
| CssExport.CssRootOpen | src/components/StyleExport.tsx:75-76 | exactly one `:root {` line when tokens are included, none otherwise |
| CssExport.CssColorVars | src/components/StyleExport.tsx:79-81 | one `--color-<slug>: <hex>;` line per colour token, in token order, only when tokens are included |
| CssExport.CssFontVars | src/components/StyleExport.tsx:84-88 | three `--font-<slug>-family/-size/-weight` lines per typography token, token by token |
| CssExport.FontBlocks | src/components/StyleExport.tsx:84-88 | the typography lines are blocks of three, block i being token i's |
| CssExport.CssSpacingVars | src/components/StyleExport.tsx:91-93 | one `--spacing-<slug>: <value><unit>;` line per spacing token, in order |
| CssExport.CssRuleHeads | src/components/StyleExport.tsx:98-100 | one `.component-<type>-<id> {` line per component, in order, only when components are included |
| CssExport.CssBackgrounds | src/components/StyleExport.tsx:105-107 | a background-color line for exactly the components that have a colour, in order, holding the first colour's hex |
| CssExport.CssRuleBoxes | src/components/StyleExport.tsx:98-103 | in the CSS lines, component i's rule starts, after the `:root` block and the earlier rules, with `.component-<type>-<id> {` and its width, height and padding lines |
| CssExport.CssIgnoresBordersAndShadows | src/components/StyleExport.tsx:75-96 | border and shadow tokens do not affect the output |
| ScssExport.FontMapEntries | src/components/StyleExport.tsx:129-132 | a font map has four entry lines: family, size, weight, close |
| ScssExport.FontMapText | src/components/StyleExport.tsx:128-132 | a font map is `$font-<slug>: (`, `  family: <family>,`, `  size: <n>px,`, `  weight: <n>`, `);` |
| ScssExport.TokensFontMapLines | src/components/StyleExport.tsx:119-133 | in the token sections, typography token i's map starts at line (number of colours) + 3 + 5·i |
| ScssExport.ScssFontMapLines | src/components/StyleExport.tsx:119-133 | with tokens included, the SCSS lines hold typography token i's five map lines at line (number of colours) + 3 + 5·i |
| ScssExport.FontMap | src/components/StyleExport.tsx:128-132 | a font map takes five lines |
| ScssExport.EmitSection | src/components/StyleExport.tsx:120-124 | a comment header, the lines of each token, an empty line |
| ScssExport.EmitTokens | src/components/StyleExport.tsx:119-141 | the colour, typography and spacing sections in turn |
| ScssExport.EmitRules | src/components/StyleExport.tsx:143-156 | one rule per component, in order |
| ScssExport.GenerateScss | src/components/StyleExport.tsx:116-159 | the output is the lines of the model; with neither tokens nor components it is the empty string |
| ScssExport.ScssColorVars | src/components/StyleExport.tsx:121-123 | one `$color-<slug>: <hex>;` line per colour token, in order, only when tokens are included |
| ScssExport.ScssFontMaps | src/components/StyleExport.tsx:127-133 | one `$font-<slug>: (` map per typography token, in order |
| ScssExport.FontMapBlocks | src/components/StyleExport.tsx:127-133 | the typography section is blocks of five lines, block i being token i's map |
| ScssExport.ScssSpacingVars | src/components/StyleExport.tsx:137-139 | one `$spacing-<slug>: <value><unit>;` line per spacing token, in order |
| ScssExport.ScssRuleHeads | src/components/StyleExport.tsx:144-145 | one `.component-<type>-<id> {` line per component, in order |
| ScssExport.ScssBackgrounds | src/components/StyleExport.tsx:150-152 | a background-color line for exactly the components with a colour, naming `$color-<slug of first colour name>`, never a hex |
| ScssExport.ScssRuleBoxes | src/components/StyleExport.tsx:143-148 | in the SCSS lines, component i's rule starts, after the token sections and the earlier rules, with its selector, width, height and padding lines |
| ScssExport.ScssIgnoresBordersAndShadows | src/components/StyleExport.tsx:119-141 | border and shadow tokens do not affect the output |
| TailwindExport.Assign | src/components/StyleExport.tsx:171-173 | the dictionary has at most one key per item, and is empty exactly when the list is |
| TailwindExport.AssignStep | src/components/StyleExport.tsx:171-173 | one more item sets its key to its value over the dictionary so far |
| TailwindExport.AssignDomain | src/components/StyleExport.tsx:171-173 | the dictionary's keys are the keys of the list's items |
| TailwindExport.AssignLastWins | src/components/StyleExport.tsx:172 | a key holds the value of the last item with that key |
| TailwindExport.ColorDictionary | src/components/StyleExport.tsx:170-173 | the loop fills the colour dictionary, later keys overwriting earlier ones |
| TailwindExport.FontDictionaries | src/components/StyleExport.tsx:177-183 | the loop fills the family and size dictionaries under the same slug |
| TailwindExport.SpacingDictionary | src/components/StyleExport.tsx:188-191 | the loop fills the spacing dictionary |
| TailwindExport.ConfigOf | src/components/StyleExport.tsx:161-193 | `theme.extend` is empty exactly when tokens are not included; with tokens it holds all four dictionaries, none larger than its token list |
| TailwindExport.GenerateTailwind | src/components/StyleExport.tsx:161-196 | without tokens `theme.extend` is empty; with tokens it holds all four dictionaries |
| TailwindExport.ColorEntries | src/components/StyleExport.tsx:170-174 | colour keys are exactly the slugs of colour names, each holding the hex of the last colour with that slug |
| TailwindExport.ColorCollision | src/components/StyleExport.tsx:172 | two colours whose names share a slug leave one key, holding the later hex |
| TailwindExport.FontEntries | src/components/StyleExport.tsx:179-185 | a typography key holds the split, trimmed family list and the size in px of the last token with that slug |
| TailwindExport.FontKeys | src/components/StyleExport.tsx:179-185 | both font dictionaries have the same keys: the slugs of the typography names |
| TailwindExport.FamilyListParts | src/components/StyleExport.tsx:181 | commas + 1 entries, none holding a comma or starting or ending in white space; the parts rejoined with commas give the input |
| TailwindExport.SpacingEntries | src/components/StyleExport.tsx:188-192 | a spacing key holds the value and unit of the last token with that slug |
| TailwindExport.IgnoresComponents | src/components/StyleExport.tsx:161-193 | the include-components switch and the components do not affect the config |
| StyleExport.Keys | src/components/StyleExport.tsx:57-67 | `metadata` is always the first key |
| StyleExport.GenerateJson | src/components/StyleExport.tsx:56-70 | metadata is copied; tokens are present iff included, components iff included; indentation 0 when minified, else 2 |
| StyleExport.JsonKeys | src/components/StyleExport.tsx:56-67 | the keys are metadata, plus tokens iff included and components iff included |
| StyleExport.PreviewOf | src/components/StyleExport.tsx:26-54 | no styles give the empty string; otherwise the preview is exactly the selected generator's output, since re-serialising minified JSON (lines 49-51) meets a document already printed with indentation 0 (line 69) |
| StyleExport.GeneratePreview | src/components/StyleExport.tsx:26-54 | the preview dispatches on the format; no styles gives the empty string |
| StyleExport.MinifyOnlyJson | src/components/StyleExport.tsx:49-51 | minifying changes only JSON output, whose indentation becomes 0 |
| StyleExport.EmptyStylesheets | src/components/StyleExport.tsx:72-159 | with neither tokens nor components the CSS and SCSS previews are empty |
| AppState.EditById | src/App.tsx:78-80 | an edit keeps length and order, replaces the items with the id by their merge, leaves the others unchanged |
| AppState.EditAbsent | src/App.tsx:78-80 | an edit of an id no item carries changes nothing |
| AppState.DeleteById | src/App.tsx:96 | a delete removes exactly the items with the id, keeps every other item as often as before, in order |
| AppState.DeleteAbsent | src/App.tsx:96 | a delete of an absent id changes nothing |
| AppState.DeleteSplits | src/App.tsx:96 | deleting from a concatenation deletes from each part |
| AppState.EditColor | src/App.tsx:71-82 | colours are edited element-wise; everything else in the record is unchanged; no state stays no state |
| AppState.DeleteColor | src/App.tsx:89-98 | the colour list loses exactly the items with the id; everything else is unchanged |
| AppState.EditTypography | src/App.tsx:105-116 | typography is edited element-wise; everything else is unchanged |
| AppState.DeleteTypography | src/App.tsx:123-133 | typography loses exactly the items with the id; everything else is unchanged |
| AppState.EditComponent | src/App.tsx:143-152 | components are edited element-wise; tokens and the rest are unchanged |
| AppState.DeleteComponent | src/App.tsx:158-165 | components lose exactly the items with the id; tokens and the rest are unchanged |
| AppState.MergeColor | src/App.tsx:79 | an empty update changes nothing; the id stays unless updated; an updated hex is taken; rgb and hsl stay unless updated |
| AppState.MergeTypography | src/App.tsx:113 | an empty update changes nothing; the id stays unless updated; an updated family is taken |
| AppState.MergeComponent | src/App.tsx:149 | an empty update changes nothing; the id stays unless updated; updated states are taken, an absent list included |
| AppState.MergeColorTwice | src/App.tsx:79 | merging u then v is merging u overridden by v; merging the same update twice is merging it once |
| AppState.MergeTypographyTwice | src/App.tsx:113 | merging u then v is merging u overridden by v; merging the same update twice is merging it once |
| AppState.MergeComponentTwice | src/App.tsx:149 | merging u then v is merging u overridden by v; merging the same update twice is merging it once |
| AppState.AbsentColorId | src/App.tsx:71-98 | edit and delete of an absent colour id leave the state as it was |
| AppState.AbsentTypographyId | src/App.tsx:105-133 | edit and delete of an absent typography id leave the state as it was |
| AppState.AbsentComponentId | src/App.tsx:143-165 | edit and delete of an absent component id leave the state as it was |
| AppState.HexEditKeepsDerived | src/App.tsx:78-80 | changing a colour's hex leaves its rgb and hsl strings as they were |
| AppState.SelectionAfterDelete | src/App.tsx:167-169 | deleting the selected component clears the selection; deleting any other id keeps it |
| AppState.ChangeTolerance | src/App.tsx:172-177 | the named key gets the value, every other key keeps its value |
| AppState.ToleranceChanges | src/App.tsx:172-177 | setting a key twice keeps the last value; setting different keys commutes |
| AppState.AssembleExtraction | src/App.tsx:41-53 | components and tokens from the analysis verbatim, dimensions 0×0, viewport desktop, the tolerances passed in, dated by the second clock reading |
| AppState.ExtractionIdsDistinct | src/App.tsx:42 | extractions at different clock readings get different ids |

## Left out

- Image loading, canvas drawing and the Promise of `extractFromImage`: this is I/O and asynchrony. The canvas read is replaced by the RGBA bytes plus a flag saying whether a 2D context exists.
- `SpacingAnalyzer`: it draws from `Math.random`, so its output is not a function of its input.
- `TypographyAnalyzer`: it returns a constant mock list with nothing to state.
- ColorAnalyzer.RgbToHsl: exact rationals, not IEEE doubles. Float tie-rounding artefacts are not reproduced.
- ComponentDetector.AspectRatio: the quotient is exact, not a rounded double. The comparisons with 1.2 and the other constants are exact.
- StyleExport.GenerateJson: the text `JSON.stringify` prints is not modelled. The output is the document (its keys and values) and the indentation width. `Date` serialisation is not modelled either; `extractedAt` is a millisecond count.
- TailwindExport.GenerateTailwind: the printed `module.exports = …` text and the key order of the JavaScript objects are not modelled. The config is Dafny maps.
- Slugs.Slug, Strings.Trim, TailwindExport.FamilyList: white space (`\s` and `trim`) is ASCII white space only, so U+00A0, U+FEFF and the other Unicode spaces are kept; `toLowerCase` is ASCII-only.
- ExportLines.KindOf: the per-kind lemmas count appended pieces, not the text's newline-separated lines; the two differ when a name, hex, font family or id holds a newline.
- CssExport.CssLines, ScssExport.ScssLines: these are the specification functions of the generators and carry no contract of their own; what they hold is stated by the lemmas about them (the per-kind lemmas, CssRuleBoxes, ScssRuleBoxes, ScssFontMapLines).
- AppState.AssembleExtraction: `Date.now()` and `new Date()` are two independent clock readings, passed in as parameters; nothing relates them.
- Numbers are printed as integers (`Strings.IntToString`). Fractional sizes and JavaScript's printing of non-integers are not modelled.
- AppState.MergeColor, AppState.MergeTypography, AppState.MergeComponent: an update field is either present (`Some`) or absent (`None`). A field present with the value `undefined` is not modelled.
- React machinery: hooks, effects, state setters, `handleFormatChange`, `handleExport`, download and clipboard, and all JSX. The null guards in `App.tsx` read `extractedStyles` from a closure with empty dependency lists. That is hook closure behaviour, so only the updater bodies are modelled, as functions of the previous state.
- `ComponentDetection.tsx`, `ImageUpload.tsx`, `TypographyPreview.tsx`, `ColorPalette.tsx`: DOM measurement, file checks entangled with browser calls, and rendering.
- `testCases.ts`: hand-written fixtures, not outputs of the code. Some disagree with it. For `#3981f6` they list `hsl(217, 91%, 60%)`, but the code gives l = round(100·303/510) = 59. They also use a component type `list` that the type union does not have.
