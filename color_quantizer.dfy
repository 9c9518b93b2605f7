/** The colour quantizer (extractColorsFromCanvas) over the RGBA bytes that
    the canvas read would return: a strided scan counting exact hex colours
    in an insertion-ordered map, a stable sort by descending frequency, the
    top twenty, and one colour token per retained colour. */
module ColorQuantizer {
  import opened Types
  import opened Strings
  import opened ColorAnalyzer

  // ---------------------------------------------------------------------
  // The scan
  // ---------------------------------------------------------------------

  /** Math.max(1, Math.floor(len / 40000)). */
  function SampleRate(len: nat): (rate: nat)
    ensures 1 <= rate
  {
    if len / 40000 > 1 then len / 40000 else 1
  }

  /** Bytes the scan advances per visited pixel. */
  function Step(len: nat): (step: nat)
    ensures 4 <= step && step % 4 == 0
  {
    4 * SampleRate(len)
  }

  predicate Opaque(px: seq<byte>, o: nat)
    requires o + 3 < |px|
  {
    px[o + 3] >= 128
  }

  function PixelHex(px: seq<byte>, o: nat): string
    requires o + 3 < |px|
  {
    RgbToHex(px[o], px[o + 1], px[o + 2])
  }

  /** The hexes of the opaque pixels the scan visits at byte offsets
      o, o + step, o + 2 * step, ..., in visiting order. The scan runs while
      a whole pixel starts at the offset; on a buffer of whole pixels with
      a step of whole pixels this is the source's `i < pixels.length`. */
  function Sampled(px: seq<byte>, step: nat, o: nat): seq<string>
    requires 0 < step
    decreases |px| - o
  {
    if o + 3 >= |px| then []
    else (if Opaque(px, o) then [PixelHex(px, o)] else []) + Sampled(px, step, o + step)
  }

  /** One step of the scan. */
  lemma SampledStep(px: seq<byte>, step: nat, o: nat)
    requires 0 < step && o + 3 < |px|
    ensures Sampled(px, step, o) == (if Opaque(px, o) then [PixelHex(px, o)] else []) + Sampled(px, step, o + step)
  {
  }

  /** The offsets o, o + step, o + 2 * step, ... at which a whole pixel of a
      buffer of len bytes starts. */
  function Offsets(len: nat, step: nat, o: nat): (qs: seq<nat>)
    requires 0 < step
    ensures forall i :: 0 <= i < |qs| ==> o <= qs[i] && qs[i] + 3 < len
    decreases len - o
  {
    if o + 3 >= len then [] else [o] + Offsets(len, step, o + step)
  }

  /** The i-th visited offset is o + i * step. */
  lemma {:induction false} OffsetsAreMultiples(len: nat, step: nat, o: nat)
    requires 0 < step
    ensures forall i :: 0 <= i < |Offsets(len, step, o)| ==> Offsets(len, step, o)[i] == o + i * step
    decreases len - o
  {
    if o + 3 < len {
      OffsetsAreMultiples(len, step, o + step);
      var qs := Offsets(len, step, o);
      forall i | 1 <= i < |qs| ensures qs[i] == o + i * step {
        assert qs[i] == Offsets(len, step, o + step)[i - 1];
        assert (o + step) + (i - 1) * step == o + i * step;
      }
    }
  }

  /** On a buffer of whole pixels, scanning from a pixel boundary by whole
      pixels visits every offset below the length. */
  lemma {:induction false} OffsetsCover(len: nat, step: nat, o: nat)
    requires len % 4 == 0 && 0 < step && step % 4 == 0 && o % 4 == 0
    ensures |Offsets(len, step, o)| == 0 <==> o >= len
    ensures forall i :: 0 <= i < |Offsets(len, step, o)| ==> Offsets(len, step, o)[i] % 4 == 0
    decreases len - o
  {
    if o + 3 < len {
      StrideSum(o, step);
      OffsetsCover(len, step, o + step);
    }
  }

  /** Every opaque pixel at a visited offset is sampled. */
  lemma {:induction false} SampledComplete(px: seq<byte>, step: nat, o: nat, q: nat)
    requires 0 < step
    requires q in Offsets(|px|, step, o) && Opaque(px, q)
    ensures PixelHex(px, q) in Sampled(px, step, o)
    decreases |px| - o
  {
    if q != o {
      SampledComplete(px, step, o + step, q);
    }
  }

  /** Every sampled hex is the colour of an opaque pixel at a visited offset. */
  lemma {:induction false} SampledSound(px: seq<byte>, step: nat, o: nat, h: string) returns (q: nat)
    requires 0 < step
    requires h in Sampled(px, step, o)
    ensures q in Offsets(|px|, step, o) && Opaque(px, q) && PixelHex(px, q) == h
    decreases |px| - o
  {
    if Opaque(px, o) && PixelHex(px, o) == h {
      q := o;
    } else {
      q := SampledSound(px, step, o + step, h);
    }
  }

  lemma StrideSum(i: nat, stride: nat)
    requires i % 4 == 0 && stride % 4 == 0
    ensures (i + stride) % 4 == 0
  {
  }

  /** Transparent pixels are skipped: a buffer whose every alpha byte is
      below 128 samples nothing. */
  lemma {:induction false} TransparentSamplesNothing(px: seq<byte>, step: nat, o: nat)
    requires 0 < step && step % 4 == 0 && o % 4 == 0
    requires forall j :: 0 <= j < |px| && j % 4 == 3 ==> px[j] < 128
    ensures Sampled(px, step, o) == []
    decreases |px| - o
  {
    if o + 3 < |px| {
      assert (o + 3) % 4 == 3;
      StrideSum(o, step);
      TransparentSamplesNothing(px, step, o + step);
    }
  }

  // ---------------------------------------------------------------------
  // The colour map: Map<string, number> with insertion order
  // ---------------------------------------------------------------------

  /** The keys of the map in insertion order and their counts. */
  datatype ColorCount = ColorCount(order: seq<string>, counts: map<string, nat>)

  /** colorMap.set(hex, (colorMap.get(hex) || 0) + 1): a new key goes last,
      an existing key keeps its place. */
  function Bump(m: ColorCount, hex: string): ColorCount
  {
    if hex in m.counts then ColorCount(m.order, m.counts[hex := m.counts[hex] + 1])
    else ColorCount(m.order + [hex], m.counts[hex := 1])
  }

  /** The map after counting hs from an empty map: it lists no more keys
      than hs has items, and some key exactly when hs is not empty. */
  function Tally(hs: seq<string>): (m: ColorCount)
    ensures |m.order| <= |hs|
    ensures m.order == [] <==> hs == []
    decreases |hs|
  {
    if hs == [] then ColorCount([], map[]) else Bump(Tally(hs[..|hs| - 1]), hs[|hs| - 1])
  }

  lemma TallySnoc(hs: seq<string>, x: string)
    ensures Tally(hs + [x]) == Bump(Tally(hs), x)
  {
    assert (hs + [x])[..|hs|] == hs;
  }

  /** Index of the first occurrence of h in s, or |s| when h does not occur. */
  function FirstIndex(s: seq<string>, h: string): (i: nat)
    ensures i <= |s|
    ensures i < |s| <==> h in s
    ensures i < |s| ==> s[i] == h && h !in s[..i]
    decreases |s|
  {
    if s == [] then 0 else if s[0] == h then 0 else 1 + FirstIndex(s[1..], h)
  }

  lemma {:induction false} FirstIndexSnoc(s: seq<string>, x: string, h: string)
    requires h in s + [x]
    ensures FirstIndex(s + [x], h) == if h in s then FirstIndex(s, h) else |s|
    decreases |s|
  {
    if s != [] && s[0] != h {
      assert (s + [x])[1..] == s[1..] + [x];
      FirstIndexSnoc(s[1..], x, h);
    }
  }

  predicate Distinct(s: seq<string>)
  {
    forall i, j :: 0 <= i < j < |s| ==> s[i] != s[j]
  }

  /** The keys of the map are the members of hs, each listed once. */
  ghost predicate KeysOf(m: ColorCount, hs: seq<string>)
  {
    && Distinct(m.order)
    && (forall h :: h in m.counts <==> h in hs)
    && (forall h :: h in m.counts <==> h in m.order)
  }

  lemma {:induction false} TallyKeys(hs: seq<string>)
    ensures KeysOf(Tally(hs), hs)
    decreases |hs|
  {
    if hs != [] {
      var init, x := hs[..|hs| - 1], hs[|hs| - 1];
      TallyKeys(init);
      assert hs == init + [x];
    }
  }

  /** Each key's count is its number of occurrences in hs. */
  lemma {:induction false} TallyFrequencies(hs: seq<string>)
    ensures forall h :: h in Tally(hs).counts ==> Tally(hs).counts[h] == multiset(hs)[h]
    decreases |hs|
  {
    if hs != [] {
      var init, x := hs[..|hs| - 1], hs[|hs| - 1];
      TallyFrequencies(init);
      TallyKeys(init);
      assert hs == init + [x];
      assert multiset(hs) == multiset(init) + multiset{x};
    }
  }

  /** The keys are in order of first occurrence in hs. */
  lemma {:induction false} TallyFirstSeen(hs: seq<string>)
    ensures forall i, j :: 0 <= i < j < |Tally(hs).order| ==>
              FirstIndex(hs, Tally(hs).order[i]) < FirstIndex(hs, Tally(hs).order[j])
    decreases |hs|
  {
    if hs != [] {
      var init, x := hs[..|hs| - 1], hs[|hs| - 1];
      TallyFirstSeen(init);
      TallyKeys(init);
      assert hs == init + [x];
      var m := Tally(init);
      var order := Tally(hs).order;
      forall i | 0 <= i < |m.order|
        ensures FirstIndex(hs, m.order[i]) == FirstIndex(init, m.order[i]) < |init|
      {
        assert m.order[i] in init;
        FirstIndexSnoc(init, x, m.order[i]);
      }
      if x !in m.counts {
        assert order == m.order + [x];
        FirstIndexSnoc(init, x, x);
      } else {
        assert order == m.order;
      }
    }
  }

  /** The map over hs: its keys are exactly the distinct members of hs, in
      order of first occurrence, and each key's count is its number of
      occurrences in hs. */
  ghost predicate CountsOf(m: ColorCount, hs: seq<string>)
  {
    && KeysOf(m, hs)
    && (forall h :: h in m.counts ==> m.counts[h] == multiset(hs)[h])
    && (forall i, j :: 0 <= i < j < |m.order| ==> FirstIndex(hs, m.order[i]) < FirstIndex(hs, m.order[j]))
  }

  lemma TallyCounts(hs: seq<string>)
    ensures CountsOf(Tally(hs), hs)
  {
    TallyKeys(hs);
    TallyFrequencies(hs);
    TallyFirstSeen(hs);
  }

  // ---------------------------------------------------------------------
  // Array.from(colorMap.entries()).sort((a, b) => b[1] - a[1]).slice(0, 20)
  // ---------------------------------------------------------------------

  datatype Entry = Entry(hex: string, frequency: nat)

  predicate KeysCounted(m: ColorCount)
  {
    forall i :: 0 <= i < |m.order| ==> m.order[i] in m.counts
  }

  /** The [hex, count] pairs in insertion order. */
  function Entries(m: ColorCount): (es: seq<Entry>)
    requires KeysCounted(m)
    ensures |es| == |m.order|
  {
    seq(|m.order|, i requires 0 <= i < |m.order| => Entry(m.order[i], m.counts[m.order[i]]))
  }

  /** Places e before the first entry whose frequency is not greater than its own. */
  function Insert(e: Entry, s: seq<Entry>): (r: seq<Entry>)
    ensures multiset(r) == multiset(s) + multiset{e}
    decreases |s|
  {
    if s == [] || s[0].frequency <= e.frequency then [e] + s
    else
      assert s == [s[0]] + s[1..];
      [s[0]] + Insert(e, s[1..])
  }

  /** Array.prototype.sort with the comparator b[1] - a[1]: a stable sort by
      descending frequency. */
  function SortByFrequency(s: seq<Entry>): (r: seq<Entry>)
    ensures multiset(r) == multiset(s)
    decreases |s|
  {
    if s == [] then []
    else
      assert s == [s[0]] + s[1..];
      Insert(s[0], SortByFrequency(s[1..]))
  }

  /** Descending by frequency, and among equal frequencies ascending by key. */
  ghost predicate RankedBy(s: seq<Entry>, key: Entry -> int)
  {
    forall i, j :: 0 <= i < j < |s| ==>
      s[i].frequency > s[j].frequency || (s[i].frequency == s[j].frequency && key(s[i]) < key(s[j]))
  }

  ghost predicate AscendingBy(s: seq<Entry>, key: Entry -> int)
  {
    forall i, j :: 0 <= i < j < |s| ==> key(s[i]) < key(s[j])
  }

  lemma InsertMember(e: Entry, s: seq<Entry>, x: Entry)
    requires x in Insert(e, s)
    ensures x == e || x in s
  {
    assert x in multiset(Insert(e, s));
  }

  lemma {:induction false} InsertRanked(e: Entry, s: seq<Entry>, key: Entry -> int)
    requires RankedBy(s, key)
    requires forall i :: 0 <= i < |s| ==> key(e) < key(s[i])
    ensures RankedBy(Insert(e, s), key)
    decreases |s|
  {
    if s == [] || s[0].frequency <= e.frequency {
      ConsRanked(e, s, key);
    } else {
      InsertRanked(e, s[1..], key);
      var t := Insert(e, s[1..]);
      forall j | 0 <= j < |t|
        ensures s[0].frequency > t[j].frequency || (s[0].frequency == t[j].frequency && key(s[0]) < key(t[j]))
      {
        InsertMember(e, s[1..], t[j]);
        if t[j] != e {
          var k :| 0 <= k < |s[1..]| && s[1..][k] == t[j];
          assert s[k + 1] == t[j];
        }
      }
      ConsRanked(s[0], t, key);
    }
  }

  /** An entry ranked before every entry of a ranked list heads it. */
  lemma ConsRanked(x: Entry, t: seq<Entry>, key: Entry -> int)
    requires RankedBy(t, key)
    requires forall j :: 0 <= j < |t| ==> x.frequency > t[j].frequency || (x.frequency == t[j].frequency && key(x) < key(t[j]))
    ensures RankedBy([x] + t, key)
  {
    var r := [x] + t;
    forall i, j | 0 <= i < j < |r|
      ensures r[i].frequency > r[j].frequency || (r[i].frequency == r[j].frequency && key(r[i]) < key(r[j]))
    {
      assert r[j] == t[j - 1];
      if i > 0 { assert r[i] == t[i - 1]; }
    }
  }

  /** The sort is stable: entries given in ascending key order come out by
      descending frequency, equal frequencies keeping that order. */
  lemma {:induction false} SortRanked(s: seq<Entry>, key: Entry -> int)
    requires AscendingBy(s, key)
    ensures RankedBy(SortByFrequency(s), key)
    decreases |s|
  {
    if s != [] {
      var t := SortByFrequency(s[1..]);
      SortRanked(s[1..], key);
      forall i | 0 <= i < |t| ensures key(s[0]) < key(t[i]) {
        assert t[i] in multiset(s[1..]);
        var k :| 0 <= k < |s[1..]| && s[1..][k] == t[i];
        assert s[k + 1] == t[i];
      }
      InsertRanked(s[0], t, key);
    }
  }

  /** .slice(0, 20). */
  function Top20(s: seq<Entry>): (r: seq<Entry>)
    ensures |r| <= 20 && |r| <= |s| && r == s[..|r|]
    ensures |s| <= 20 ==> r == s
    ensures |s| > 20 ==> |r| == 20
  {
    if |s| <= 20 then s else s[..20]
  }

  // ---------------------------------------------------------------------
  // The colour tokens
  // ---------------------------------------------------------------------

  /** `rgb(${r}, ${g}, ${b})`. */
  function RgbText(c: Rgb): string
  {
    "rgb(" + NatToString(c.r as nat) + ", " + NatToString(c.g as nat) + ", " + NatToString(c.b as nat) + ")"
  }

  /** `hsl(${h}, ${s}%, ${l}%)`. */
  function HslText(c: Hsl): string
  {
    "hsl(" + IntToString(c.h) + ", " + IntToString(c.s) + "%, " + IntToString(c.l) + "%)"
  }

  /** The token for the entry at position index of the sorted, truncated list. */
  function TokenFor(e: Entry, index: nat): ColorToken
  {
    var rgb := HexToRgb(e.hex);
    var hsl := RgbToHsl(rgb.r, rgb.g, rgb.b);
    ColorToken(
      "color-" + NatToString(index),
      GenerateColorName(e.hex),
      e.hex,
      RgbText(rgb),
      HslText(hsl),
      InferColorUsage(e.hex, e.frequency),
      e.frequency)
  }

  function ToTokens(es: seq<Entry>): (ts: seq<ColorToken>)
    ensures |ts| == |es|
  {
    seq(|es|, i requires 0 <= i < |es| => TokenFor(es[i], i))
  }

  /** The palette of a buffer, stage by stage. */
  function SampleOf(px: seq<byte>): seq<string>
  {
    Sampled(px, Step(|px|), 0)
  }

  function RankedEntries(px: seq<byte>): seq<Entry>
  {
    var m := Tally(SampleOf(px));
    TallyKeys(SampleOf(px));
    SortByFrequency(Entries(m))
  }

  /** At most twenty colours, no more than the pixels sampled, and at
      least one when any pixel was sampled. */
  function Palette(px: seq<byte>): (ts: seq<ColorToken>)
    ensures |ts| <= 20 && |ts| <= |SampleOf(px)|
    ensures SampleOf(px) != [] ==> ts != []
  {
    var ranked := RankedEntries(px);
    assert |ranked| == |Tally(SampleOf(px)).order| by {
      TallyKeys(SampleOf(px));
      assert |multiset(ranked)| == |multiset(Entries(Tally(SampleOf(px))))|;
    }
    ToTokens(Top20(ranked))
  }

  // ---------------------------------------------------------------------
  // extractColorsFromCanvas
  // ---------------------------------------------------------------------

  /** Visiting an opaque pixel appends its hex to the visited list and bumps
      its count. */
  lemma ScanVisit(px: seq<byte>, step: nat, o: nat, visited: seq<string>, hex: string)
    requires 0 < step && o + 3 < |px| && px[o + 3] >= 128 && hex == RgbToHex(px[o], px[o + 1], px[o + 2])
    ensures visited + Sampled(px, step, o) == (visited + [hex]) + Sampled(px, step, o + step)
    ensures Tally(visited + [hex]) == Bump(Tally(visited), hex)
  {
    SampledStep(px, step, o);
    TallySnoc(visited, hex);
  }

  /** Skipping a transparent pixel leaves the visited list as it is. */
  lemma ScanSkip(px: seq<byte>, step: nat, o: nat, visited: seq<string>)
    requires 0 < step && o + 3 < |px| && px[o + 3] < 128
    ensures visited + Sampled(px, step, o) == visited + Sampled(px, step, o + step)
  {
    SampledStep(px, step, o);
  }

  /** Once the whole sample is counted, the rest of the pipeline yields the palette. */
  lemma CountToPalette(px: seq<byte>, visited: seq<string>, m: ColorCount)
    requires visited == SampleOf(px) && m == Tally(visited)
    ensures KeysCounted(m)
    ensures ToTokens(Top20(SortByFrequency(Entries(m)))) == Palette(px)
  {
    TallyKeys(visited);
  }

  /** The scan of extractColorsFromCanvas: every 4 * sampleRate bytes, an
      opaque pixel's hex is counted in the insertion-ordered colour map. */
  method CountColors(pixels: seq<byte>) returns (order: seq<string>, counts: map<string, nat>)
    requires |pixels| % 4 == 0
    ensures ColorCount(order, counts) == Tally(SampleOf(pixels))
  {
    order, counts := [], map[];
    var sampleRate := if |pixels| / 40000 > 1 then |pixels| / 40000 else 1;
    var stride := 4 * sampleRate;
    assert stride == Step(|pixels|);
    ghost var all := SampleOf(pixels);
    ghost var visited: seq<string> := [];
    var i := 0;
    while i < |pixels|
      invariant i % 4 == 0
      invariant visited + Sampled(pixels, stride, i) == all
      invariant ColorCount(order, counts) == Tally(visited)
      decreases |pixels| - i
    {
      assert i + 3 < |pixels|;
      var r, g, b, a := pixels[i], pixels[i + 1], pixels[i + 2], pixels[i + 3];
      if a >= 128 {
        var hex := RgbToHex(r, g, b);
        ScanVisit(pixels, stride, i, visited, hex);
        ghost var before := ColorCount(order, counts);
        var previous := if hex in counts then counts[hex] else 0;
        if hex !in counts {
          order := order + [hex];
        }
        counts := counts[hex := previous + 1];
        assert ColorCount(order, counts) == Bump(before, hex);
        visited := visited + [hex];
      } else {
        ScanSkip(pixels, stride, i, visited);
      }
      StrideSum(i, stride);
      i := i + stride;
    }
    assert Sampled(pixels, stride, i) == [];
    assert visited == all;
  }

  /** extractColorsFromCanvas on the bytes of the canvas. contextAvailable
      says whether the canvas yielded a 2D context; without one the result
      is empty. The tolerance argument is accepted and not used. */
  method ExtractColors(contextAvailable: bool, pixels: seq<byte>, tolerance: int) returns (colors: seq<ColorToken>)
    requires |pixels| % 4 == 0
    ensures colors == if contextAvailable then Palette(pixels) else []
    ensures |colors| <= 20
  {
    if !contextAvailable {
      return [];
    }
    var order, counts := CountColors(pixels);
    CountToPalette(pixels, SampleOf(pixels), ColorCount(order, counts));
    var entries := Entries(ColorCount(order, counts));
    var sorted := SortByFrequency(entries);
    var top := if |sorted| <= 20 then sorted else sorted[..20];
    colors := ToTokens(top);
  }

  // ---------------------------------------------------------------------
  // What the palette promises
  // ---------------------------------------------------------------------

  /** The entries of the tally list each sampled colour once, with its
      number of occurrences. */
  lemma EntriesOfTally(hs: seq<string>)
    ensures KeysCounted(Tally(hs))
    ensures forall e :: e in Entries(Tally(hs)) ==> e.hex in hs && e.frequency == multiset(hs)[e.hex]
    ensures forall h :: h in hs ==> Entry(h, multiset(hs)[h]) in Entries(Tally(hs))
  {
    var m := Tally(hs);
    TallyKeys(hs);
    TallyFrequencies(hs);
    var es := Entries(m);
    forall h | h in hs ensures Entry(h, multiset(hs)[h]) in es {
      var k := FirstIndex(m.order, h);
      assert es[k] == Entry(h, multiset(hs)[h]);
    }
  }

  /** Sorting neither adds nor drops entries. */
  lemma SortKeepsEntries(s: seq<Entry>)
    ensures forall e :: e in SortByFrequency(s) <==> e in s
  {
    var r := SortByFrequency(s);
    assert multiset(r) == multiset(s);
    forall e ensures e in r <==> e in s {
      assert e in r <==> e in multiset(r);
      assert e in s <==> e in multiset(s);
    }
  }

  /** Each ranked entry is a sampled colour with its number of occurrences. */
  lemma RankedMembers(px: seq<byte>)
    ensures var S, es := SampleOf(px), RankedEntries(px);
      forall i :: 0 <= i < |es| ==> es[i].hex in S && es[i].frequency == multiset(S)[es[i].hex]
  {
    var S := SampleOf(px);
    EntriesOfTally(S);
    SortKeepsEntries(Entries(Tally(S)));
  }

  /** Every sampled colour has a ranked entry. */
  lemma RankedCovers(px: seq<byte>, h: string) returns (i: nat)
    requires h in SampleOf(px)
    ensures i < |RankedEntries(px)| && RankedEntries(px)[i].hex == h
  {
    var S := SampleOf(px);
    EntriesOfTally(S);
    SortKeepsEntries(Entries(Tally(S)));
    var es := RankedEntries(px);
    assert Entry(h, multiset(S)[h]) in es;
    i := IndexOf(es, Entry(h, multiset(S)[h]));
  }

  lemma IndexOf<T>(s: seq<T>, x: T) returns (i: nat)
    requires x in s
    ensures i < |s| && s[i] == x
  {
    i :| 0 <= i < |s| && s[i] == x;
  }

  /** The ranked entries go by descending frequency and, among equal
      frequencies, by first sighting in the sample. */
  lemma RankedOrder(px: seq<byte>)
    ensures var S, es := SampleOf(px), RankedEntries(px);
      forall i, j :: 0 <= i < j < |es| ==>
        es[i].frequency > es[j].frequency
        || (es[i].frequency == es[j].frequency && FirstIndex(S, es[i].hex) < FirstIndex(S, es[j].hex))
  {
    var S := SampleOf(px);
    var m := Tally(S);
    TallyKeys(S);
    TallyFirstSeen(S);
    var entries := Entries(m);
    var key := (e: Entry) => FirstIndex(S, e.hex);
    assert AscendingBy(entries, key);
    SortRanked(entries, key);
    assert RankedEntries(px) == SortByFrequency(entries);
  }

  /** The tokens of the first twenty entries carry their hexes and frequencies. */
  lemma TokensOfTop(es: seq<Entry>)
    ensures var p := ToTokens(Top20(es));
      forall i :: 0 <= i < |p| ==> i < |es| && p[i].hex == es[i].hex && p[i].frequency == es[i].frequency
  {
  }

  /** At most twenty colours; each token's id is its position, its hex is a
      sampled colour and its frequency the number of visited opaque pixels of
      that colour; name, rgb, hsl and usage derive from the hex. */
  lemma PaletteFields(px: seq<byte>)
    ensures var S, p := SampleOf(px), Palette(px);
      && |p| <= 20
      && (forall i :: 0 <= i < |p| ==>
            && p[i].id == "color-" + NatToString(i)
            && p[i].hex in S
            && p[i].frequency == multiset(S)[p[i].hex]
            && p[i].name == GenerateColorName(p[i].hex)
            && p[i].rgb == RgbText(HexToRgb(p[i].hex))
            && p[i].hsl == HslText(HslOfHex(p[i].hex))
            && p[i].usage == InferColorUsage(p[i].hex, p[i].frequency))
  {
    RankedMembers(px);
  }

  /** The colours are pairwise distinct, by non-increasing frequency, ties in
      order of first sighting. */
  lemma PaletteOrder(px: seq<byte>)
    ensures var S, p := SampleOf(px), Palette(px);
      forall i, j :: 0 <= i < j < |p| ==>
        && p[i].hex != p[j].hex
        && p[i].frequency >= p[j].frequency
        && (p[i].frequency == p[j].frequency ==> FirstIndex(S, p[i].hex) < FirstIndex(S, p[j].hex))
  {
    RankedOrder(px);
    RankedMembers(px);
    var es := RankedEntries(px);
    TokensOfTop(es);
  }

  /** Only the twenty most frequent colours are dropped: a sampled colour
      missing from the palette means the palette is full and every colour in
      it is at least as frequent. */
  lemma PaletteKeepsMostFrequent(px: seq<byte>, h: string)
    requires h in SampleOf(px)
    requires forall i :: 0 <= i < |Palette(px)| ==> Palette(px)[i].hex != h
    ensures |Palette(px)| == 20
    ensures forall i :: 0 <= i < 20 ==> Palette(px)[i].frequency >= multiset(SampleOf(px))[h]
  {
    var k := RankedCovers(px, h);
    var es := RankedEntries(px);
    assert es[k].frequency == multiset(SampleOf(px))[h] by {
      RankedMembers(px);
    }
    assert forall i, j :: 0 <= i < j < |es| ==> es[i].frequency >= es[j].frequency by {
      RankedOrder(px);
    }
    var p := Palette(px);
    assert p == ToTokens(Top20(es));
    assert forall i :: 0 <= i < |p| ==> p[i].hex != es[k].hex;
    TopKeepsMostFrequent(es, k);
  }

  /** The hex of the token at i, or "" past the end. */
  function HexAt(p: seq<ColorToken>, i: nat): string
  {
    if i < |p| then p[i].hex else ""
  }

  /** Of entries by non-increasing frequency, one whose hex no token of
      the first twenty carries lies beyond a full twenty, all at least as
      frequent. */
  lemma TopKeepsMostFrequent(es: seq<Entry>, k: nat)
    requires k < |es|
    requires forall i, j :: 0 <= i < j < |es| ==> es[i].frequency >= es[j].frequency
    requires forall i :: 0 <= i < |ToTokens(Top20(es))| ==> ToTokens(Top20(es))[i].hex != es[k].hex
    ensures |ToTokens(Top20(es))| == 20
    ensures forall i :: 0 <= i < 20 ==> ToTokens(Top20(es))[i].frequency >= es[k].frequency
  {
    var p := ToTokens(Top20(es));
    TokensOfTop(es);
    var hk := es[k].hex;
    assert k < |p| ==> HexAt(p, k) != hk;
    assert k >= |p|;
    assert |p| == |Top20(es)|;
    assert |es| > 20;
  }

  /** Two white pixels followed by two black ones. */
  const TwoByTwo: seq<byte> := [255, 255, 255, 255, 255, 255, 255, 255, 0, 0, 0, 255, 0, 0, 0, 255]

  lemma WhiteHex()
    ensures RgbToHex(255, 255, 255) == "#ffffff"
  {
    assert HexPair(255) == "ff";
  }

  lemma BlackHex()
    ensures RgbToHex(0, 0, 0) == "#000000"
  {
    assert HexPair(0) == "00";
  }

  lemma TwoByTwoPixel(o: nat)
    requires o < 16 && o % 4 == 0
    ensures Opaque(TwoByTwo, o)
    ensures PixelHex(TwoByTwo, o) == if o < 8 then "#ffffff" else "#000000"
  {
    var px := TwoByTwo;
    if o < 8 {
      assert px[o] == 255 && px[o + 1] == 255 && px[o + 2] == 255 && px[o + 3] == 255;
      WhiteHex();
    } else {
      assert px[o] == 0 && px[o + 1] == 0 && px[o + 2] == 0 && px[o + 3] == 255;
      BlackHex();
    }
  }

  lemma TwoByTwoFrom12()
    ensures Sampled(TwoByTwo, 4, 12) == ["#000000"]
  {
    TwoByTwoPixel(12);
    SampledStep(TwoByTwo, 4, 12);
    assert Sampled(TwoByTwo, 4, 16) == [];
  }

  lemma TwoByTwoFrom8()
    ensures Sampled(TwoByTwo, 4, 8) == ["#000000", "#000000"]
  {
    TwoByTwoFrom12();
    TwoByTwoPixel(8);
    SampledStep(TwoByTwo, 4, 8);
  }

  lemma TwoByTwoFrom4()
    ensures Sampled(TwoByTwo, 4, 4) == ["#ffffff", "#000000", "#000000"]
  {
    TwoByTwoFrom8();
    TwoByTwoPixel(4);
    SampledStep(TwoByTwo, 4, 4);
  }

  lemma TwoByTwoSample()
    ensures SampleOf(TwoByTwo) == ["#ffffff", "#ffffff", "#000000", "#000000"]
  {
    assert Step(|TwoByTwo|) == 4;
    TwoByTwoFrom4();
    TwoByTwoPixel(0);
    SampledStep(TwoByTwo, 4, 0);
  }

  /** Two colours seen twice each are counted in order of first sighting. */
  lemma TallyTwoPairs(a: string, b: string)
    requires a != b
    ensures Tally([a, a, b, b]) == ColorCount([a, b], map[a := 2, b := 2])
  {
    var S := [a, a, b, b];
    assert S[..3] == [a, a, b] && S[..2] == [a, a] && S[..1] == [a];
    assert S[..3][..2] == S[..2] && S[..2][..1] == S[..1] && S[..1][..0] == [];
    assert Tally(S[..1]) == ColorCount([a], map[a := 1]);
    assert Tally(S[..2]) == ColorCount([a], map[a := 2]);
    assert Tally(S[..3]) == ColorCount([a, b], map[a := 2, b := 1]);
  }

  /** Equal frequencies keep their order through the sort. */
  lemma SortTie(a: string, b: string, f: nat)
    ensures SortByFrequency([Entry(a, f), Entry(b, f)]) == [Entry(a, f), Entry(b, f)]
  {
    var s := [Entry(a, f), Entry(b, f)];
    assert s[1..] == [Entry(b, f)];
    assert s[1..][1..] == [];
  }

  lemma TwoByTwoRanked()
    ensures RankedEntries(TwoByTwo) == [Entry("#ffffff", 2), Entry("#000000", 2)]
  {
    TwoByTwoSample();
    TallyTwoPairs("#ffffff", "#000000");
    var m := ColorCount(["#ffffff", "#000000"], map["#ffffff" := 2, "#000000" := 2]);
    assert Entries(m) == [Entry("#ffffff", 2), Entry("#000000", 2)];
    SortTie("#ffffff", "#000000", 2);
  }

  lemma WhiteFields()
    ensures GenerateColorName("#ffffff") == "white"
    ensures InferColorUsage("#ffffff", 2) == Other
  {
    WhiteHex();
    HexRoundTrip(255, 255, 255);
    assert ToLower("#ffffff") == "#ffffff";
    assert Brightness(Rgb(255, 255, 255)) == 255.0;
  }

  lemma BlackName()
    ensures GenerateColorName("#000000") == "black"
  {
    assert ToLower("#000000") == "#000000";
  }

  lemma BlackUsage()
    ensures InferColorUsage("#000000", 2) == Text
  {
    BlackHex();
    HexRoundTrip(0, 0, 0);
    assert Brightness(Rgb(0, 0, 0)) == 0.0;
  }

  lemma FirstIds()
    ensures "color-" + NatToString(0) == "color-0"
    ensures "color-" + NatToString(1) == "color-1"
  {
    assert NatToString(0) == "0";
    assert NatToString(1) == "1";
  }

  /** A buffer ranked to two entries gives two tokens for them. */
  lemma PaletteOfTwo(px: seq<byte>, a: string, b: string, f: nat)
    requires RankedEntries(px) == [Entry(a, f), Entry(b, f)]
    ensures var p := Palette(px);
      && |p| == 2
      && p[0].id == "color-0" && p[0].hex == a && p[0].name == GenerateColorName(a) && p[0].frequency == f
      && p[0].usage == InferColorUsage(a, f)
      && p[1].id == "color-1" && p[1].hex == b && p[1].name == GenerateColorName(b) && p[1].frequency == f
      && p[1].usage == InferColorUsage(b, f)
  {
    PaletteFields(px);
    TokensOfTop(RankedEntries(px));
    assert |Palette(px)| == 2;
    FirstIds();
  }

  /** A buffer of two white pixels then two black ones: white comes first as
      it was seen first, both with frequency 2; white is "other" and black is
      "text". */
  lemma TwoByTwoExample()
    ensures var p := Palette(TwoByTwo);
      && |p| == 2
      && p[0].id == "color-0" && p[0].hex == "#ffffff" && p[0].name == "white" && p[0].frequency == 2 && p[0].usage == Other
      && p[1].id == "color-1" && p[1].hex == "#000000" && p[1].name == "black" && p[1].frequency == 2 && p[1].usage == Text
  {
    TwoByTwoRanked();
    PaletteOfTwo(TwoByTwo, "#ffffff", "#000000", 2);
    WhiteFields();
    BlackName();
    BlackUsage();
  }
}
