/** The key rule every exporter applies to a token name:
    name.toLowerCase().replace(/\s+/g, '-'), over ASCII. */
module Slugs {
  import opened Strings

  /** Each maximal run of white space becomes one '-': a white-space
      character followed by another one is dropped, the last one of a run
      becomes '-'. */
  function CollapseSpace(s: string): (r: string)
    ensures forall i :: 0 <= i < |r| ==> !IsSpace(r[i])
    ensures forall i :: 0 <= i < |r| ==> r[i] == '-' || r[i] in s
    ensures |r| <= |s|
    decreases |s|
  {
    if s == [] then []
    else if IsSpace(s[0]) && |s| > 1 && IsSpace(s[1]) then CollapseSpace(s[1..])
    else [if IsSpace(s[0]) then '-' else s[0]] + CollapseSpace(s[1..])
  }

  function Slug(name: string): (key: string)
    ensures forall i :: 0 <= i < |key| ==> !IsSpace(key[i]) && !IsUpper(key[i])
  {
    CollapseSpace(ToLower(name))
  }

  /** A character other than white space is kept. */
  lemma CollapseKeeps(c: char, rest: string)
    requires !IsSpace(c)
    ensures CollapseSpace([c] + rest) == [c] + CollapseSpace(rest)
  {
    assert ([c] + rest)[1..] == rest;
  }

  /** A whole run of white space, up to the next other character or the end,
      becomes a single '-'. */
  lemma {:induction false} CollapseRun(run: string, rest: string)
    requires 0 < |run| && forall i :: 0 <= i < |run| ==> IsSpace(run[i])
    requires rest == [] || !IsSpace(rest[0])
    ensures CollapseSpace(run + rest) == "-" + CollapseSpace(rest)
    decreases |run|
  {
    var s := run + rest;
    assert s[1..] == run[1..] + rest;
    if |run| > 1 {
      CollapseRun(run[1..], rest);
    }
  }

  /** Text without white space is left as it is. */
  lemma {:induction false} CollapseNoSpace(s: string)
    requires forall i :: 0 <= i < |s| ==> !IsSpace(s[i])
    ensures CollapseSpace(s) == s
    decreases |s|
  {
    if s != [] {
      CollapseNoSpace(s[1..]);
      CollapseKeeps(s[0], s[1..]);
      assert [s[0]] + s[1..] == s;
    }
  }

  lemma {:induction false} ToLowerNoUpper(s: string)
    requires forall i :: 0 <= i < |s| ==> !IsUpper(s[i])
    ensures ToLower(s) == s
  {
  }

  /** The slug of a slug is the slug itself. */
  lemma SlugIdempotent(name: string)
    ensures Slug(Slug(name)) == Slug(name)
  {
    var key := Slug(name);
    ToLowerNoUpper(key);
    CollapseNoSpace(key);
  }

  /** A slug has white space nowhere, and has exactly as many '-' for runs
      as there are white-space runs: a name of words separated by single
      spaces keeps its words, joined by '-'. */
  lemma SlugOfTwoWords(a: string, b: string)
    requires forall i :: 0 <= i < |a| ==> !IsSpace(a[i]) && !IsUpper(a[i])
    requires forall i :: 0 <= i < |b| ==> !IsSpace(b[i]) && !IsUpper(b[i])
    ensures Slug(a + " " + b) == a + "-" + b
  {
    var s := a + " " + b;
    assert forall i :: 0 <= i < |s| ==> !IsUpper(s[i]) by {
      forall i | 0 <= i < |s| ensures !IsUpper(s[i]) {
        if i < |a| { assert s[i] == a[i]; }
        else if i > |a| { assert s[i] == b[i - |a| - 1]; }
      }
    }
    ToLowerNoUpper(s);
    assert s == a + (" " + b);
    CollapseWord(a, " " + b);
    CollapseRun(" ", b);
    CollapseNoSpace(b);
  }

  /** A leading word without white space is kept. */
  lemma {:induction false} CollapseWord(w: string, rest: string)
    requires forall i :: 0 <= i < |w| ==> !IsSpace(w[i])
    ensures CollapseSpace(w + rest) == w + CollapseSpace(rest)
    decreases |w|
  {
    if w != [] {
      assert w + rest == [w[0]] + (w[1..] + rest);
      CollapseKeeps(w[0], w[1..] + rest);
      CollapseWord(w[1..], rest);
      assert [w[0]] + (w[1..] + CollapseSpace(rest)) == w + CollapseSpace(rest);
    } else {
      assert w + rest == rest;
    }
  }
}
