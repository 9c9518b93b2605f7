/** Text and sequence helpers shared by the analyser and the exporters:
    decimal rendering of numbers, ASCII case and white space, text built
    from newline-terminated pieces, filtering, and the comma split and
    trim used for font-family lists. */
module Strings {

  // ---------------------------------------------------------------------
  // Decimal rendering of integers (the `${n}` of a template literal)
  // ---------------------------------------------------------------------

  function DigitChar(d: nat): (c: char)
    requires d < 10
    ensures '0' <= c <= '9'
  {
    (48 + d) as char
  }

  function DigitValue(c: char): nat
    requires '0' <= c <= '9'
  {
    c as int - 48
  }

  /** Decimal digits of a natural number, most significant first, no leading zeros. */
  function NatToString(n: nat): (s: string)
    ensures 1 <= |s|
    ensures forall i :: 0 <= i < |s| ==> '0' <= s[i] <= '9'
    ensures |s| > 1 ==> s[0] != '0'
    decreases n
  {
    if n < 10 then [DigitChar(n)] else NatToString(n / 10) + [DigitChar(n % 10)]
  }

  /** The value of a string of decimal digits. */
  function DecimalValue(s: string): nat
    requires forall i :: 0 <= i < |s| ==> '0' <= s[i] <= '9'
    decreases |s|
  {
    if s == [] then 0 else 10 * DecimalValue(s[..|s| - 1]) + DigitValue(s[|s| - 1])
  }

  /** Reading back the decimal rendering gives the number. */
  lemma {:induction false} DecimalRoundTrip(n: nat)
    ensures DecimalValue(NatToString(n)) == n
    decreases n
  {
    if n >= 10 {
      DecimalRoundTrip(n / 10);
      var s := NatToString(n);
      assert s[..|s| - 1] == NatToString(n / 10);
    }
  }

  /** Distinct numbers render as distinct strings. */
  lemma NatToStringInjective(m: nat, n: nat)
    requires m != n
    ensures NatToString(m) != NatToString(n)
  {
    DecimalRoundTrip(m);
    DecimalRoundTrip(n);
  }

  function IntToString(i: int): (s: string)
    ensures 1 <= |s|
  {
    if i < 0 then "-" + NatToString(-i) else NatToString(i)
  }

  // ---------------------------------------------------------------------
  // ASCII white space and letter case
  // ---------------------------------------------------------------------

  /** The ASCII members of the regular-expression class `\s`. */
  predicate IsSpace(c: char)
  {
    c == ' ' || c == '\t' || c == '\n' || c == '\r' || c == 11 as char || c == 12 as char
  }

  predicate IsUpper(c: char)
  {
    'A' <= c <= 'Z'
  }

  function LowerChar(c: char): (d: char)
    ensures !IsUpper(d)
    ensures IsSpace(d) <==> IsSpace(c)
    ensures !IsUpper(c) ==> d == c
  {
    if IsUpper(c) then (c as int + 32) as char else c
  }

  /** ASCII lower-casing, character by character. */
  function ToLower(s: string): (r: string)
    ensures |r| == |s|
    ensures forall i :: 0 <= i < |s| ==> r[i] == LowerChar(s[i])
    decreases |s|
  {
    if s == [] then [] else [LowerChar(s[0])] + ToLower(s[1..])
  }

  lemma {:induction false} ToLowerIdempotent(s: string)
    ensures ToLower(ToLower(s)) == ToLower(s)
  {
    var t := ToLower(s);
    assert forall i :: 0 <= i < |t| ==> ToLower(t)[i] == t[i];
  }

  // ---------------------------------------------------------------------
  // Prefixes, filtering and flattening
  // ---------------------------------------------------------------------

  /** s begins with p, stated character by character. */
  predicate StartsWith(s: string, p: string)
  {
    |p| <= |s| && forall i :: 0 <= i < |p| ==> s[i] == p[i]
  }

  lemma StartsWithAppend(p: string, rest: string)
    ensures StartsWith(p + rest, p)
  {
  }

  /** Elements of xs that satisfy p, in their original order. */
  function Filter<T>(xs: seq<T>, p: T -> bool): (r: seq<T>)
    ensures |r| <= |xs|
    ensures forall i :: 0 <= i < |r| ==> p(r[i]) && r[i] in xs
    decreases |xs|
  {
    if xs == [] then []
    else Filter(xs[..|xs| - 1], p) + (if p(xs[|xs| - 1]) then [xs[|xs| - 1]] else [])
  }

  lemma {:induction false} FilterAppend<T>(a: seq<T>, b: seq<T>, p: T -> bool)
    ensures Filter(a + b, p) == Filter(a, p) + Filter(b, p)
    decreases |b|
  {
    if b == [] {
      assert a + b == a;
    } else {
      var b' := b[..|b| - 1];
      assert (a + b)[..|a + b| - 1] == a + b';
      FilterAppend(a, b', p);
    }
  }

  lemma {:induction false} FilterNone<T>(xs: seq<T>, p: T -> bool)
    requires forall i :: 0 <= i < |xs| ==> !p(xs[i])
    ensures Filter(xs, p) == []
    decreases |xs|
  {
    if xs != [] {
      FilterNone(xs[..|xs| - 1], p);
    }
  }

  lemma {:induction false} FilterAll<T>(xs: seq<T>, p: T -> bool)
    requires forall i :: 0 <= i < |xs| ==> p(xs[i])
    ensures Filter(xs, p) == xs
    decreases |xs|
  {
    if xs != [] {
      FilterAll(xs[..|xs| - 1], p);
    }
  }

  /** The concatenation of f(x) over xs, in order. */
  function FlatMap<T, U>(xs: seq<T>, f: T -> seq<U>): seq<U>
    decreases |xs|
  {
    if xs == [] then [] else FlatMap(xs[..|xs| - 1], f) + f(xs[|xs| - 1])
  }

  lemma FlatMapSnoc<T, U>(xs: seq<T>, i: nat, f: T -> seq<U>)
    requires i < |xs|
    ensures FlatMap(xs[..i + 1], f) == FlatMap(xs[..i], f) + f(xs[i])
  {
    assert xs[..i + 1][..i] == xs[..i];
  }

  /** Filtering a flattened sequence filters each part. */
  lemma {:induction false} FilterFlatMap<T, U>(xs: seq<T>, f: T -> seq<U>, g: T -> seq<U>, p: U -> bool)
    requires forall i :: 0 <= i < |xs| ==> Filter(f(xs[i]), p) == g(xs[i])
    ensures Filter(FlatMap(xs, f), p) == FlatMap(xs, g)
    decreases |xs|
  {
    if xs != [] {
      var init := xs[..|xs| - 1];
      FilterFlatMap(init, f, g, p);
      FilterAppend(FlatMap(init, f), f(xs[|xs| - 1]), p);
    }
  }

  lemma AppendAssoc<T>(a: seq<T>, b: seq<T>, c: seq<T>)
    ensures a + (b + c) == a + b + c
  {
  }

  /** Four parts of which all but one are empty join to that one. */
  lemma OnlyPart<T>(a: seq<T>, b: seq<T>, c: seq<T>, d: seq<T>)
    ensures b == [] && c == [] && d == [] ==> a + b + c + d == a
    ensures a == [] && c == [] && d == [] ==> a + b + c + d == b
    ensures a == [] && b == [] && d == [] ==> a + b + c + d == c
  {
  }

  /** Filtering a flattened sequence finds nothing when no part has a match. */
  lemma FilterFlatMapNone<T, U>(xs: seq<T>, f: T -> seq<U>, p: U -> bool)
    requires forall i :: 0 <= i < |xs| ==> Filter(f(xs[i]), p) == []
    ensures Filter(FlatMap(xs, f), p) == []
  {
    var none: T -> seq<U> := _ => [];
    FilterFlatMap(xs, f, none, p);
    FlatMapNothing(xs, none);
  }

  lemma {:induction false} FlatMapNothing<T, U>(xs: seq<T>, g: T -> seq<U>)
    requires forall i :: 0 <= i < |xs| ==> g(xs[i]) == []
    ensures FlatMap(xs, g) == []
    decreases |xs|
  {
    if xs != [] {
      var init := xs[..|xs| - 1];
      assert forall i :: 0 <= i < |init| ==> init[i] == xs[i];
      FlatMapNothing(init, g);
    }
  }

  lemma FilterConcat3<T>(a: seq<T>, b: seq<T>, c: seq<T>, p: T -> bool)
    ensures Filter(a + b + c, p) == Filter(a, p) + Filter(b, p) + Filter(c, p)
  {
    FilterAppend(a + b, c, p);
    FilterAppend(a, b, p);
  }

  lemma FilterConcat4<T>(a: seq<T>, b: seq<T>, c: seq<T>, d: seq<T>, p: T -> bool)
    ensures Filter(a + b + c + d, p) == Filter(a, p) + Filter(b, p) + Filter(c, p) + Filter(d, p)
  {
    FilterAppend(a + b + c, d, p);
    FilterConcat3(a, b, c, p);
  }

  lemma FilterConcat5<T>(a: seq<T>, b: seq<T>, c: seq<T>, d: seq<T>, e: seq<T>, p: T -> bool)
    ensures Filter(a + b + c + d + e, p) == Filter(a, p) + Filter(b, p) + Filter(c, p) + Filter(d, p) + Filter(e, p)
  {
    FilterAppend(a + b + c + d, e, p);
    FilterConcat4(a, b, c, d, p);
  }

  /** Parts b and d that the filter drops entirely leave a and c. */
  lemma FilterDropping<T>(a: seq<T>, b: seq<T>, c: seq<T>, d: seq<T>, p: T -> bool)
    requires Filter(b, p) == [] && Filter(d, p) == []
    ensures Filter(a + b + c + d, p) == Filter(a, p) + Filter(c, p)
  {
    FilterConcat4(a, b, c, d, p);
    assert Filter(a, p) + Filter(b, p) == Filter(a, p);
  }

  /** A last part that the filter drops entirely leaves the other four. */
  lemma FilterDroppingLast<T>(a: seq<T>, b: seq<T>, c: seq<T>, d: seq<T>, e: seq<T>, p: T -> bool)
    requires Filter(e, p) == []
    ensures Filter(a + b + c + d + e, p) == Filter(a, p) + Filter(b, p) + Filter(c, p) + Filter(d, p)
  {
    FilterConcat5(a, b, c, d, e, p);
  }

  lemma FilterOne<T>(x: T, p: T -> bool)
    ensures Filter([x], p) == if p(x) then [x] else []
  {
    assert [x][..0] == [];
  }

  /** Each element contributing k parts gives k parts per element. */
  lemma {:induction false} FlatMapLength<T, U>(xs: seq<T>, f: T -> seq<U>, k: nat)
    requires forall i :: 0 <= i < |xs| ==> |f(xs[i])| == k
    ensures |FlatMap(xs, f)| == k * |xs|
    decreases |xs|
  {
    if xs != [] {
      var init := xs[..|xs| - 1];
      assert forall i :: 0 <= i < |init| ==> init[i] == xs[i];
      FlatMapLength(init, f, k);
      assert k * |xs| == k * |init| + k;
    }
  }

  lemma {:induction false} FlatMapAppend<T, U>(a: seq<T>, b: seq<T>, f: T -> seq<U>)
    ensures FlatMap(a + b, f) == FlatMap(a, f) + FlatMap(b, f)
    decreases |b|
  {
    if b == [] {
      assert a + b == a;
    } else {
      var b' := b[..|b| - 1];
      assert (a + b)[..|a + b| - 1] == a + b';
      FlatMapAppend(a, b', f);
    }
  }

  /** The parts of the element at position i sit at k * i in the result. */
  lemma FlatMapBlock<T, U>(xs: seq<T>, f: T -> seq<U>, k: nat, i: nat)
    requires forall n :: 0 <= n < |xs| ==> |f(xs[n])| == k
    requires i < |xs|
    ensures k * i + k <= |FlatMap(xs, f)|
    ensures FlatMap(xs, f)[k * i..k * i + k] == f(xs[i])
  {
    var pre, rest := xs[..i + 1], xs[i + 1..];
    assert xs == pre + rest;
    FlatMapAppend(pre, rest, f);
    FlatMapSnoc(xs, i, f);
    assert forall n :: 0 <= n < i ==> xs[..i][n] == xs[n];
    FlatMapLength(xs[..i], f, k);
    var a := FlatMap(xs[..i], f);
    assert FlatMap(xs, f) == a + f(xs[i]) + FlatMap(rest, f);
  }

  /** A slice of the second part of a concatenation, taken in the whole. */
  lemma SliceAfter<T>(pre: seq<T>, xs: seq<T>, a: nat, n: nat)
    requires a + n <= |xs|
    ensures (pre + xs)[|pre| + a..|pre| + a + n] == xs[a..a + n]
  {
  }

  /** The parts of the element at position i follow the parts of the
      elements before it. */
  lemma FlatMapAt<T, U>(xs: seq<T>, f: T -> seq<U>, i: nat)
    requires i < |xs|
    ensures |FlatMap(xs[..i], f)| + |f(xs[i])| <= |FlatMap(xs, f)|
    ensures FlatMap(xs, f)[|FlatMap(xs[..i], f)|..|FlatMap(xs[..i], f)| + |f(xs[i])|] == f(xs[i])
  {
    var pre, rest := xs[..i + 1], xs[i + 1..];
    assert xs == pre + rest;
    FlatMapAppend(pre, rest, f);
    FlatMapSnoc(xs, i, f);
    var a := FlatMap(xs[..i], f);
    assert FlatMap(xs, f) == a + f(xs[i]) + FlatMap(rest, f);
  }

  /** After some leading parts, the first n parts of the element at
      position i follow the leading parts and the parts of the elements
      before it. */
  lemma FlatMapPrefixAt<T, U>(pre: seq<U>, xs: seq<T>, f: T -> seq<U>, i: nat, n: nat)
    requires i < |xs| && n <= |f(xs[i])|
    ensures |pre| + |FlatMap(xs[..i], f)| + n <= |pre + FlatMap(xs, f)|
    ensures (pre + FlatMap(xs, f))[|pre| + |FlatMap(xs[..i], f)|..|pre| + |FlatMap(xs[..i], f)| + n] == f(xs[i])[0..n]
  {
    var a := |FlatMap(xs[..i], f)|;
    FlatMapAt(xs, f, i);
    SliceAfter(pre, FlatMap(xs, f), a, |f(xs[i])|);
    assert (pre + FlatMap(xs, f))[|pre| + a..|pre| + a + n] == (pre + FlatMap(xs, f))[|pre| + a..|pre| + a + |f(xs[i])|][0..n];
  }

  /** The run w occurs in xs at offset o. */
  predicate SliceIs<T(==)>(xs: seq<T>, o: nat, w: seq<T>)
  {
    o + |w| <= |xs| && xs[o..o + |w|] == w
  }

  /** A run that opens the parts of element i opens, after leading parts
      pre, at the length of pre and of the parts of the elements before i. */
  lemma FlatMapSliceIs<T, U>(ls: seq<U>, pre: seq<U>, xs: seq<T>, f: T -> seq<U>, i: nat, o: nat, w: seq<U>)
    requires ls == pre + FlatMap(xs, f)
    requires i < |xs| && SliceIs(f(xs[i]), 0, w)
    requires o == |pre| + |FlatMap(xs[..i], f)|
    ensures SliceIs(ls, o, w)
  {
    FlatMapPrefixAt(pre, xs, f, i, |w|);
  }

  /** A run found in xs is found at the same offset once more items follow. */
  lemma SliceIsPrefix<T>(xs: seq<T>, ys: seq<T>, o: nat, w: seq<T>)
    requires SliceIs(xs, o, w)
    ensures SliceIs(xs + ys, o, w)
  {
    assert (xs + ys)[o..o + |w|] == xs[o..o + |w|];
  }

  /** A run found in the middle part is found, shifted by the leading
      part, in the whole. */
  lemma SliceIsMiddle<T>(pre: seq<T>, xs: seq<T>, post: seq<T>, a: nat, w: seq<T>)
    requires a + |w| <= |xs| && xs[a..a + |w|] == w
    ensures SliceIs(pre + xs + post, |pre| + a, w)
  {
    assert (pre + xs + post)[|pre| + a..|pre| + a + |w|] == xs[a..a + |w|];
  }

  lemma SliceIsEqual<T>(xs: seq<T>, ys: seq<T>, o: nat, w: seq<T>)
    requires ys == xs && SliceIs(xs, o, w)
    ensures SliceIs(ys, o, w)
  {
  }

  /** Elements contributing one part when p holds and none otherwise give
      one part per element of Filter(xs, p). */
  lemma {:induction false} FlatMapOptional<T, U>(xs: seq<T>, f: T -> seq<U>, p: T -> bool, h: T -> U)
    requires forall i :: 0 <= i < |xs| ==> f(xs[i]) == if p(xs[i]) then [h(xs[i])] else []
    ensures |FlatMap(xs, f)| == |Filter(xs, p)|
    ensures forall i :: 0 <= i < |Filter(xs, p)| ==> FlatMap(xs, f)[i] == h(Filter(xs, p)[i])
    decreases |xs|
  {
    if xs != [] {
      var init := xs[..|xs| - 1];
      assert forall i :: 0 <= i < |init| ==> init[i] == xs[i];
      FlatMapOptional(init, f, p, h);
    }
  }

  /** p gives b on every element. */
  predicate Uniform<T>(xs: seq<T>, p: T -> bool, b: bool)
  {
    forall j :: 0 <= j < |xs| ==> p(xs[j]) == b
  }

  lemma FilterUniform<T>(xs: seq<T>, p: T -> bool, b: bool)
    requires Uniform(xs, p, b)
    ensures Filter(xs, p) == if b then xs else []
  {
    if b {
      FilterAll(xs, p);
    } else {
      FilterNone(xs, p);
    }
  }

  /** Filtering a flattened sequence whose parts are each kept or dropped whole. */
  lemma FilterSection<T, U>(xs: seq<T>, f: T -> seq<U>, p: U -> bool, b: bool)
    requires forall i :: 0 <= i < |xs| ==> Uniform(f(xs[i]), p, b)
    ensures Filter(FlatMap(xs, f), p) == if b then FlatMap(xs, f) else []
  {
    forall i | 0 <= i < |xs|
      ensures Filter(f(xs[i]), p) == if b then f(xs[i]) else []
    {
      FilterUniform(f(xs[i]), p, b);
    }
    if b {
      FilterFlatMap(xs, f, f, p);
    } else {
      FilterFlatMapNone(xs, f, p);
    }
  }

  lemma {:induction false} FlatMapSingletons<T, U>(xs: seq<T>, f: T -> seq<U>, h: T -> U)
    requires forall i :: 0 <= i < |xs| ==> f(xs[i]) == [h(xs[i])]
    ensures |FlatMap(xs, f)| == |xs|
    ensures forall i :: 0 <= i < |xs| ==> FlatMap(xs, f)[i] == h(xs[i])
    decreases |xs|
  {
    if xs != [] {
      FlatMapSingletons(xs[..|xs| - 1], f, h);
    }
  }

  // ---------------------------------------------------------------------
  // Text built from newline-terminated pieces (`out += piece + "\n"`)
  // ---------------------------------------------------------------------

  function Lines(ls: seq<string>): string
    decreases |ls|
  {
    if ls == [] then "" else Lines(ls[..|ls| - 1]) + ls[|ls| - 1] + "\n"
  }

  lemma {:induction false} LinesAppend(a: seq<string>, b: seq<string>)
    ensures Lines(a + b) == Lines(a) + Lines(b)
    decreases |b|
  {
    if b == [] {
      assert a + b == a;
    } else {
      var b' := b[..|b| - 1];
      assert (a + b)[..|a + b| - 1] == a + b';
      LinesAppend(a, b');
    }
  }

  lemma LinesOne(line: string)
    ensures Lines([line]) == line + "\n"
  {
    assert [line][..0] == [];
  }

  /** Appending the lines of one more element of xs. */
  lemma LinesStep<T>(xs: seq<T>, i: nat, f: T -> seq<string>)
    requires i < |xs|
    ensures Lines(FlatMap(xs[..i + 1], f)) == Lines(FlatMap(xs[..i], f)) + Lines(f(xs[i]))
  {
    FlatMapSnoc(xs, i, f);
    LinesAppend(FlatMap(xs[..i], f), f(xs[i]));
  }

  lemma LinesSnoc(ls: seq<string>, line: string)
    ensures Lines(ls + [line]) == Lines(ls) + line + "\n"
  {
    assert (ls + [line])[..|ls|] == ls;
  }

  // ---------------------------------------------------------------------
  // Splitting on a separator, joining, trimming
  // ---------------------------------------------------------------------

  /** The parts of s between occurrences of sep (String.prototype.split with a
      one-character separator): always at least one part. */
  function Split(s: string, sep: char): (parts: seq<string>)
    ensures 1 <= |parts|
    decreases |s|
  {
    if s == [] then [""]
    else
      var rest := Split(s[1..], sep);
      if s[0] == sep then [""] + rest else [[s[0]] + rest[0]] + rest[1..]
  }

  function Join(parts: seq<string>, sep: char): string
    decreases |parts|
  {
    if |parts| == 0 then "" else if |parts| == 1 then parts[0] else parts[0] + [sep] + Join(parts[1..], sep)
  }

  /** Joining the parts with the separator gives back the original text. */
  lemma {:induction false} JoinSplit(s: string, sep: char)
    ensures Join(Split(s, sep), sep) == s
    decreases |s|
  {
    if s != [] {
      var rest := Split(s[1..], sep);
      JoinSplit(s[1..], sep);
      if s[0] == sep {
        assert Split(s, sep)[1..] == rest;
      } else {
        var parts := Split(s, sep);
        assert parts[1..] == rest[1..];
        if |rest| > 1 {
          assert rest[1..] == rest[1..];
          assert Join(rest, sep) == rest[0] + [sep] + Join(rest[1..], sep);
        }
      }
    }
  }

  /** No part contains the separator, and there is one more part than
      there are separators. */
  lemma {:induction false} SplitParts(s: string, sep: char)
    ensures |Split(s, sep)| == multiset(s)[sep] + 1
    ensures forall i :: 0 <= i < |Split(s, sep)| ==> sep !in Split(s, sep)[i]
    decreases |s|
  {
    if s != [] {
      SplitParts(s[1..], sep);
      assert s == [s[0]] + s[1..];
      assert multiset(s) == multiset([s[0]]) + multiset(s[1..]);
      var rest := Split(s[1..], sep);
      if s[0] != sep {
        var parts := Split(s, sep);
        assert forall i :: 1 <= i < |parts| ==> parts[i] == rest[i];
      }
    }
  }

  /** s without its leading white space. */
  function TrimStart(s: string): (r: string)
    ensures |r| <= |s| && r == s[|s| - |r|..]
    ensures r == [] || !IsSpace(r[0])
    ensures forall k :: 0 <= k < |s| - |r| ==> IsSpace(s[k])
    decreases |s|
  {
    if s != [] && IsSpace(s[0]) then TrimStart(s[1..]) else s
  }

  /** s without its trailing white space. */
  function TrimEnd(s: string): (r: string)
    ensures |r| <= |s| && r == s[..|r|]
    ensures r == [] || !IsSpace(r[|r| - 1])
    ensures forall k :: |r| <= k < |s| ==> IsSpace(s[k])
    decreases |s|
  {
    if s != [] && IsSpace(s[|s| - 1]) then TrimEnd(s[..|s| - 1]) else s
  }

  /** String.prototype.trim over ASCII white space: the longest middle part
      of s that neither starts nor ends with white space, everything cut
      off being white space. */
  function Trim(s: string): (r: string)
    ensures r == [] || (!IsSpace(r[0]) && !IsSpace(r[|r| - 1]))
    ensures exists i: nat, j: nat :: i <= j <= |s| && r == s[i..j]
              && (forall k :: 0 <= k < i ==> IsSpace(s[k]))
              && (forall k :: j <= k < |s| ==> IsSpace(s[k]))
  {
    var t := TrimStart(s);
    var r := TrimEnd(t);
    var i := |s| - |t|;
    assert r == s[i..i + |r|];
    r
  }
}
