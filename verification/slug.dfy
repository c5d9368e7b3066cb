/**
 * `generateCphiSlug`: the normaliser that turns a product or company name
 * into the path segment of a marketplace detail page. The source chains
 * `toLowerCase`, `trim` and four regular-expression replacements; each
 * stage is one function here, applied in the same order.
 */
module Slug {

  /** The characters JavaScript's `\s` and `String.prototype.trim` treat as white space. */
  predicate IsWhitespace(c: char) {
    || c == ' ' || c == '\t' || c == '\n' || c == '\r'
    || c == '\U{000B}' || c == '\U{000C}' || c == '\U{00A0}' || c == '\U{1680}'
    || ('\U{2000}' <= c <= '\U{200A}')
    || c == '\U{2028}' || c == '\U{2029}' || c == '\U{202F}' || c == '\U{205F}'
    || c == '\U{3000}' || c == '\U{FEFF}'
  }

  predicate IsUpperAscii(c: char) {
    'A' <= c <= 'Z'
  }

  /** The characters a slug may contain: `[a-z0-9-]`. */
  predicate IsSlugChar(c: char) {
    ('a' <= c <= 'z') || ('0' <= c <= '9') || c == '-'
  }

  /** No two adjacent hyphens. */
  predicate NoDoubleHyphen(s: string) {
    forall i, j :: 0 <= i < |s| && 0 <= j < |s| && j == i + 1 ==> !(s[i] == '-' && s[j] == '-')
  }

  /** What every output of `Slugify` looks like. */
  predicate IsSlug(s: string) {
    && (forall i :: 0 <= i < |s| ==> IsSlugChar(s[i]))
    && (|s| > 0 ==> s[0] != '-' && s[|s| - 1] != '-')
    && NoDoubleHyphen(s)
  }

  function ToLower(c: char): (r: char)
    ensures !IsUpperAscii(r)
    ensures !IsUpperAscii(c) ==> r == c
  {
    if IsUpperAscii(c) then (c as int + 32) as char else c
  }

  /** `toLowerCase()`, for the ASCII letters. */
  function Lower(s: string): (r: string)
    ensures |r| == |s|
    ensures forall i :: 0 <= i < |s| ==> r[i] == ToLower(s[i])
  {
    seq(|s|, i requires 0 <= i < |s| => ToLower(s[i]))
  }

  function TrimStart(s: string): (r: string)
    ensures |r| <= |s| && r == s[|s| - |r|..]
    ensures |r| > 0 ==> !IsWhitespace(r[0])
  {
    if |s| > 0 && IsWhitespace(s[0]) then TrimStart(s[1..]) else s
  }

  function TrimEnd(s: string): (r: string)
    ensures |r| <= |s| && r == s[..|r|]
    ensures |r| > 0 ==> !IsWhitespace(r[|r| - 1])
  {
    if |s| > 0 && IsWhitespace(s[|s| - 1]) then TrimEnd(s[..|s| - 1]) else s
  }

  /** `trim()` */
  function Trim(s: string): string {
    TrimEnd(TrimStart(s))
  }

  /** `.replace(/[^a-z0-9\s-]/g, '')`: keeps slug characters and white space. */
  function KeepSlugChars(s: string): (r: string)
    ensures |r| <= |s|
    ensures forall i :: 0 <= i < |r| ==> IsSlugChar(r[i]) || IsWhitespace(r[i])
  {
    if |s| == 0 then []
    else if IsSlugChar(s[0]) || IsWhitespace(s[0]) then [s[0]] + KeepSlugChars(s[1..])
    else KeepSlugChars(s[1..])
  }

  /** The two run-collapsing replacements: `/\s+/g` and `/-+/g`, both by '-'. */
  datatype Run = Spaces | Hyphens

  predicate InRun(c: char, k: Run) {
    match k
    case Spaces => IsWhitespace(c)
    case Hyphens => c == '-'
  }

  /** Drops the maximal run of class `k` at the front of `s`. */
  function SkipRun(s: string, k: Run): (r: string)
    ensures |r| <= |s| && r == s[|s| - |r|..]
    ensures |s| > 0 && InRun(s[0], k) ==> |r| < |s|
    ensures |r| > 0 ==> !InRun(r[0], k)
  {
    if |s| > 0 && InRun(s[0], k) then SkipRun(s[1..], k) else s
  }

  /** The replacement as it proceeds along the text: a maximal run of
      class `k` at the front becomes one '-', any other character is
      copied. */
  function CollapseRuns(s: string, k: Run): string
    decreases |s|
  {
    if |s| == 0 then []
    else if InRun(s[0], k) then "-" + CollapseRuns(SkipRun(s, k), k)
    else [s[0]] + CollapseRuns(s[1..], k)
  }

  /** Replaces every maximal run of class `k` by a single '-'. */
  function ReplaceRuns(s: string, k: Run): (r: string)
    ensures |s| == 0 <==> |r| == 0
    ensures |s| > 0 ==> r[0] == (if InRun(s[0], k) then '-' else s[0])
    ensures forall i :: 0 <= i < |r| ==> r[i] == '-' || (r[i] in s && !InRun(r[i], k))
    ensures k == Hyphens ==> NoDoubleHyphen(r)
  {
    CollapseShape(s, k);
    CollapseRuns(s, k)
  }

  lemma CollapseShape(s: string, k: Run)
    ensures var r := CollapseRuns(s, k);
      && (|s| == 0 <==> |r| == 0)
      && (|s| > 0 ==> r[0] == (if InRun(s[0], k) then '-' else s[0]))
      && (forall i :: 0 <= i < |r| ==> r[i] == '-' || (r[i] in s && !InRun(r[i], k)))
      && (k == Hyphens ==> NoDoubleHyphen(r))
  {
    CollapseChars(s, k);
    if k == Hyphens {
      CollapseNoDoubleHyphen(s);
    }
  }

  /** Every character of the replacement is a hyphen or a character of the
      input outside the class. */
  lemma {:induction false} CollapseChars(s: string, k: Run)
    ensures forall c :: c in CollapseRuns(s, k) ==> c == '-' || (c in s && !InRun(c, k))
    decreases |s|
  {
    if |s| > 0 {
      if InRun(s[0], k) {
        var rest := SkipRun(s, k);
        CollapseChars(rest, k);
        assert forall c :: c in rest ==> c in s by {
          assert rest == s[|s| - |rest|..];
        }
      } else {
        CollapseChars(s[1..], k);
        assert forall c :: c in s[1..] ==> c in s;
      }
    }
  }

  /** After the hyphen pass no two hyphens touch: a run becomes one hyphen,
      and what follows a run does not start with one. */
  lemma {:induction false} CollapseNoDoubleHyphen(s: string)
    ensures NoDoubleHyphen(CollapseRuns(s, Hyphens))
    decreases |s|
  {
    if |s| > 0 {
      var head: char;
      var rest: string;
      if s[0] == '-' {
        rest := SkipRun(s, Hyphens);
        head := '-';
      } else {
        rest := s[1..];
        head := s[0];
      }
      CollapseNoDoubleHyphen(rest);
      var tail := CollapseRuns(rest, Hyphens);
      assert |tail| > 0 ==> tail[0] == rest[0];
      assert CollapseRuns(s, Hyphens) == [head] + tail;
      NoDoubleHyphenCons(head, tail);
    }
  }

  lemma NoDoubleHyphenCons(c: char, t: string)
    requires NoDoubleHyphen(t)
    requires c == '-' && |t| > 0 ==> t[0] != '-'
    ensures NoDoubleHyphen([c] + t)
  {
    var r := [c] + t;
    forall i, j | 0 <= i < |r| && 0 <= j < |r| && j == i + 1
      ensures !(r[i] == '-' && r[j] == '-')
    {
      if i > 0 {
        assert r[i] == t[i - 1] && r[j] == t[j - 1];
      }
    }
  }

  /** `.replace(/^-|-$/g, '')`: drops one leading and one trailing hyphen. */
  function StripHyphenEnds(s: string): (r: string)
    ensures |r| <= |s|
    ensures var i := if |s| > 0 && s[0] == '-' then 1 else 0;
      && i + |r| <= |s| <= i + |r| + 1
      && r == s[i..i + |r|]
      && (i + |r| < |s| ==> s[|s| - 1] == '-')
    ensures forall i :: 0 <= i < |r| ==> r[i] in s
    ensures NoDoubleHyphen(s) ==> NoDoubleHyphen(r) && (|r| > 0 ==> r[0] != '-' && r[|r| - 1] != '-')
  {
    var t := if |s| > 0 && s[0] == '-' then s[1..] else s;
    if |t| > 0 && t[|t| - 1] == '-' then t[..|t| - 1] else t
  }

  /** `generateCphiSlug(title)`: the result is always a well-formed slug. */
  function Slugify(title: string): (r: string)
    ensures IsSlug(r)
  {
    var kept := KeepSlugChars(Trim(Lower(title)));
    var spaced := ReplaceRuns(kept, Spaces);
    assert forall i :: 0 <= i < |spaced| ==> IsSlugChar(spaced[i]);
    var collapsed := ReplaceRuns(spaced, Hyphens);
    StripHyphenEnds(collapsed)
  }

  lemma {:induction false} KeepSlugCharsFixes(s: string)
    requires forall i :: 0 <= i < |s| ==> IsSlugChar(s[i]) || IsWhitespace(s[i])
    ensures KeepSlugChars(s) == s
  {
    if |s| > 0 {
      KeepSlugCharsFixes(s[1..]);
    }
  }

  lemma {:induction false} ReplaceHyphensFixes(s: string)
    requires NoDoubleHyphen(s)
    ensures CollapseRuns(s, Hyphens) == s
  {
    if |s| > 0 {
      assert NoDoubleHyphen(s[1..]);
      ReplaceHyphensFixes(s[1..]);
      if s[0] == '-' {
        assert SkipRun(s, Hyphens) == s[1..];
      }
    }
  }

  lemma {:induction false} LowerFixes(s: string)
    requires forall i :: 0 <= i < |s| ==> !IsUpperAscii(s[i])
    ensures Lower(s) == s
  {
    assert forall i :: 0 <= i < |s| ==> Lower(s)[i] == s[i];
  }

  lemma {:induction false} TrimFixes(s: string)
    requires |s| > 0 ==> !IsWhitespace(s[0]) && !IsWhitespace(s[|s| - 1])
    ensures Trim(s) == s
  {
    assert TrimStart(s) == s;
  }

  /** Every stage before the hyphen trimming leaves a slug unchanged. */
  lemma {:induction false} StagesFix(s: string)
    requires IsSlug(s)
    ensures ReplaceRuns(ReplaceRuns(KeepSlugChars(Trim(Lower(s))), Spaces), Hyphens) == s
  {
    assert Lower(s) == s by {
      assert forall i :: 0 <= i < |s| ==> !IsUpperAscii(s[i]);
      LowerFixes(s);
    }
    assert Trim(s) == s by {
      assert |s| > 0 ==> IsSlugChar(s[0]) && IsSlugChar(s[|s| - 1]);
      TrimFixes(s);
    }
    assert KeepSlugChars(s) == s by {
      KeepSlugCharsFixes(s);
    }
    assert ReplaceRuns(s, Spaces) == s by {
      assert NoneInRun(s, Spaces);
      ReplaceRunsFixes(s, Spaces);
    }
    assert ReplaceRuns(s, Hyphens) == s by {
      ReplaceHyphensFixes(s);
    }
  }

  /** A string that already is a slug comes back unchanged. */
  lemma {:induction false} SlugifyFixesSlugs(s: string)
    requires IsSlug(s)
    ensures Slugify(s) == s
  {
    StagesFix(s);
    StripFixes(s);
  }

  lemma StripFixes(s: string)
    requires IsSlug(s)
    ensures StripHyphenEnds(s) == s
  {
  }

  /** `generateCphiSlug` is idempotent. */
  lemma {:induction false} SlugifyIdempotent(title: string)
    ensures Slugify(Slugify(title)) == Slugify(title)
  {
    SlugifyFixesSlugs(Slugify(title));
  }

  // ---------------------------------------------------------------------------
  // What the slug is made of

  predicate IsAlnum(c: char) {
    ('a' <= c <= 'z') || ('0' <= c <= '9')
  }

  /** The lower-case ASCII letters and digits of `s`, in order. */
  function Alnums(s: string): string {
    if |s| == 0 then [] else (if IsAlnum(s[0]) then [s[0]] else []) + Alnums(s[1..])
  }

  lemma {:induction false} AlnumsConcat(a: string, b: string)
    ensures Alnums(a + b) == Alnums(a) + Alnums(b)
  {
    if |a| > 0 {
      assert (a + b)[1..] == a[1..] + b;
      AlnumsConcat(a[1..], b);
    } else {
      assert a + b == b;
    }
  }

  lemma {:induction false} TrimStartAlnums(s: string)
    ensures Alnums(TrimStart(s)) == Alnums(s)
  {
    if |s| > 0 && IsWhitespace(s[0]) {
      TrimStartAlnums(s[1..]);
    }
  }

  lemma {:induction false} TrimEndAlnums(s: string)
    ensures Alnums(TrimEnd(s)) == Alnums(s)
  {
    if |s| > 0 && IsWhitespace(s[|s| - 1]) {
      TrimEndAlnums(s[..|s| - 1]);
      assert s == s[..|s| - 1] + [s[|s| - 1]];
      AlnumsConcat(s[..|s| - 1], [s[|s| - 1]]);
      assert Alnums([s[|s| - 1]]) == [];
    }
  }

  lemma {:induction false} KeepAlnums(s: string)
    ensures Alnums(KeepSlugChars(s)) == Alnums(s)
  {
    if |s| > 0 {
      KeepAlnums(s[1..]);
      if IsSlugChar(s[0]) || IsWhitespace(s[0]) {
        assert ([s[0]] + KeepSlugChars(s[1..]))[1..] == KeepSlugChars(s[1..]);
      }
    }
  }

  lemma {:induction false} SkipRunAlnums(s: string, k: Run)
    ensures Alnums(SkipRun(s, k)) == Alnums(s)
  {
    if |s| > 0 && InRun(s[0], k) {
      RunNotAlnum(s[0], k);
      SkipRunAlnums(s[1..], k);
      assert SkipRun(s, k) == SkipRun(s[1..], k);
    }
  }

  lemma RunNotAlnum(c: char, k: Run)
    requires InRun(c, k)
    ensures !IsAlnum(c)
  {
  }

  lemma {:induction false} ReplaceRunsAlnums(s: string, k: Run)
    ensures Alnums(ReplaceRuns(s, k)) == Alnums(s)
  {
    CollapseAlnums(s, k);
  }

  lemma {:induction false} CollapseAlnums(s: string, k: Run)
    ensures Alnums(CollapseRuns(s, k)) == Alnums(s)
    decreases |s|
  {
    if |s| > 0 {
      if InRun(s[0], k) {
        var rest := SkipRun(s, k);
        CollapseAlnums(rest, k);
        SkipRunAlnums(s, k);
        assert ("-" + CollapseRuns(rest, k))[1..] == CollapseRuns(rest, k);
      } else {
        CollapseAlnums(s[1..], k);
        assert ([s[0]] + CollapseRuns(s[1..], k))[1..] == CollapseRuns(s[1..], k);
      }
    }
  }

  lemma {:induction false} StripAlnums(s: string)
    ensures Alnums(StripHyphenEnds(s)) == Alnums(s)
  {
    var t := if |s| > 0 && s[0] == '-' then s[1..] else s;
    assert Alnums(t) == Alnums(s);
    if |t| > 0 && t[|t| - 1] == '-' {
      assert t == t[..|t| - 1] + "-";
      AlnumsConcat(t[..|t| - 1], "-");
    }
  }

  /** The slug is made of the name: the name's letters and digits, lower-cased,
      appear in the slug in their order, and (by `IsSlug`) everything else in
      it is a hyphen. */
  lemma {:induction false} SlugifyKeepsAlnums(title: string)
    ensures Alnums(Slugify(title)) == Alnums(Lower(title))
  {
    var lowered := Lower(title);
    TrimStartAlnums(lowered);
    TrimEndAlnums(TrimStart(lowered));
    var kept := KeepSlugChars(Trim(lowered));
    KeepAlnums(Trim(lowered));
    var spaced := ReplaceRuns(kept, Spaces);
    ReplaceRunsAlnums(kept, Spaces);
    var collapsed := ReplaceRuns(spaced, Hyphens);
    ReplaceRunsAlnums(spaced, Hyphens);
    StripAlnums(collapsed);
  }

  // ---------------------------------------------------------------------------
  // Where the hyphens go

  /** The special-character pass decides character by character: text
      splits into parts that are filtered separately, and a single character
      is kept exactly when it is a slug character or white space. */
  lemma {:induction false} KeepSlugCharsByChar(a: string, b: string, c: char)
    ensures KeepSlugChars(a + b) == KeepSlugChars(a) + KeepSlugChars(b)
    ensures KeepSlugChars([c]) == (if IsSlugChar(c) || IsWhitespace(c) then [c] else [])
  {
    if |a| > 0 {
      assert (a + b)[1..] == a[1..] + b;
      KeepSlugCharsByChar(a[1..], b, c);
    } else {
      assert a + b == b;
    }
  }

  predicate AllInRun(w: string, k: Run) {
    forall i :: 0 <= i < |w| ==> InRun(w[i], k)
  }

  predicate NoneInRun(s: string, k: Run) {
    forall i :: 0 <= i < |s| ==> !InRun(s[i], k)
  }

  /** Text with no character of the class is left alone. */
  lemma {:induction false} ReplaceRunsFixes(s: string, k: Run)
    requires NoneInRun(s, k)
    ensures CollapseRuns(s, k) == s
  {
    if |s| > 0 {
      ReplaceRunsFixes(s[1..], k);
    }
  }

  lemma {:induction false} SkipWholeRun(w: string, b: string, k: Run)
    requires AllInRun(w, k)
    requires |b| > 0 ==> !InRun(b[0], k)
    ensures SkipRun(w + b, k) == b
  {
    if |w| > 0 {
      assert (w + b)[1..] == w[1..] + b;
      SkipWholeRun(w[1..], b, k);
    } else {
      assert w + b == b;
    }
  }

  /** A character outside the class is copied, and the rest is processed
      on its own. */
  lemma ReplaceRunsKeepsChar(c: char, b: string, k: Run)
    requires !InRun(c, k)
    ensures ReplaceRuns([c] + b, k) == [c] + ReplaceRuns(b, k)
  {
    CollapseKeepsChar(c, b, k);
  }

  /** A maximal run of the class in front of other text becomes one
      hyphen, and the rest is processed on its own. With
      `ReplaceRunsKeepsChar` this pins the replacement down completely:
      every text is empty, starts with a character outside the class, or
      starts with a maximal run. */
  lemma ReplaceRunsLeadingRun(w: string, b: string, k: Run)
    requires |w| > 0 && AllInRun(w, k)
    requires |b| > 0 ==> !InRun(b[0], k)
    ensures ReplaceRuns(w + b, k) == "-" + ReplaceRuns(b, k)
  {
    CollapseLeadingRun(w, b, k);
  }

  lemma {:induction false} CollapseLeadingRun(w: string, b: string, k: Run)
    requires |w| > 0 && AllInRun(w, k)
    requires |b| > 0 ==> !InRun(b[0], k)
    ensures CollapseRuns(w + b, k) == "-" + CollapseRuns(b, k)
  {
    SkipWholeRun(w, b, k);
    assert (w + b)[0] == w[0];
  }

  /** Text without a character of the class is copied in front of whatever
      follows it. */
  lemma {:induction false} CollapsePrefix(a: string, t: string, k: Run)
    requires NoneInRun(a, k)
    ensures CollapseRuns(a + t, k) == a + CollapseRuns(t, k)
  {
    if |a| == 0 {
      assert a + t == t;
    } else {
      var c, a' := a[0], a[1..];
      assert a == [c] + a';
      assert a + t == [c] + (a' + t);
      CollapseKeepsChar(c, a' + t, k);
      CollapsePrefix(a', t, k);
    }
  }

  lemma CollapseKeepsChar(c: char, b: string, k: Run)
    requires !InRun(c, k)
    ensures CollapseRuns([c] + b, k) == [c] + CollapseRuns(b, k)
  {
    assert ([c] + b)[1..] == b;
  }

  /** Between two pieces of text without a character of the class, a run
      becomes exactly one hyphen. */
  lemma ReplaceRunsSplit(a: string, w: string, b: string, k: Run)
    requires NoneInRun(a, k) && NoneInRun(b, k)
    requires |w| > 0 && AllInRun(w, k)
    ensures ReplaceRuns(a + w + b, k) == a + "-" + b
  {
    CollapseSplit(a, w, b, k);
  }

  lemma {:induction false} CollapseSplit(a: string, w: string, b: string, k: Run)
    requires NoneInRun(a, k) && NoneInRun(b, k)
    requires |w| > 0 && AllInRun(w, k)
    ensures CollapseRuns(a + w + b, k) == a + "-" + b
  {
    calc {
      CollapseRuns(a + w + b, k);
    == { assert a + w + b == a + (w + b); }
      CollapseRuns(a + (w + b), k);
    == { CollapsePrefix(a, w + b, k); }
      a + CollapseRuns(w + b, k);
    == { assert |b| > 0 ==> !InRun(b[0], k);
         CollapseLeadingRun(w, b, k); }
      a + ("-" + CollapseRuns(b, k));
    == { ReplaceRunsFixes(b, k); }
      a + ("-" + b);
    }
  }

  /** Two slugs with white space between them slugify to the two joined by
      a single hyphen: the white space between words becomes the hyphen. */
  lemma {:induction false} SlugifyJoinsWords(a: string, w: string, b: string)
    requires IsSlug(a) && IsSlug(b) && |a| > 0 && |b| > 0
    requires |w| > 0 && forall i :: 0 <= i < |w| ==> IsWhitespace(w[i])
    ensures Slugify(a + w + b) == a + "-" + b
  {
    var t := a + w + b;
    var joined := a + "-" + b;
    assert KeepSlugChars(Trim(Lower(t))) == t by {
      JoinedText(a, w, b);
    }
    assert ReplaceRuns(t, Spaces) == joined by {
      assert NoneInRun(a, Spaces) && NoneInRun(b, Spaces) && AllInRun(w, Spaces);
      ReplaceRunsSplit(a, w, b, Spaces);
    }
    assert IsSlug(joined) by {
      JoinedSlug(a, b);
    }
    assert ReplaceRuns(joined, Hyphens) == joined by {
      ReplaceHyphensFixes(joined);
    }
    assert StripHyphenEnds(joined) == joined by {
      StripFixes(joined);
    }
  }

  /** Slugs joined by white space hold only slug characters and white space,
      and neither start nor end with white space or an upper-case letter, so
      the first three stages leave them alone. */
  lemma JoinedText(a: string, w: string, b: string)
    requires IsSlug(a) && IsSlug(b) && |a| > 0 && |b| > 0
    requires |w| > 0 && forall i :: 0 <= i < |w| ==> IsWhitespace(w[i])
    ensures KeepSlugChars(Trim(Lower(a + w + b))) == a + w + b
  {
    var t := a + w + b;
    assert forall i :: 0 <= i < |t| ==> IsSlugChar(t[i]) || IsWhitespace(t[i]) by {
      forall i | 0 <= i < |t|
        ensures IsSlugChar(t[i]) || IsWhitespace(t[i])
      {
        if i < |a| { assert t[i] == a[i]; }
        else if i < |a| + |w| { assert t[i] == w[i - |a|]; }
        else { assert t[i] == b[i - |a| - |w|]; }
      }
    }
    LowerFixes(t);
    assert t[0] == a[0] && t[|t| - 1] == b[|b| - 1];
    TrimFixes(t);
    KeepSlugCharsFixes(t);
  }

  /** Two slugs joined by one hyphen form a slug. */
  lemma JoinedSlug(a: string, b: string)
    requires IsSlug(a) && IsSlug(b) && |a| > 0 && |b| > 0
    ensures IsSlug(a + "-" + b)
  {
    var joined := a + "-" + b;
    forall i | 0 <= i < |joined|
      ensures IsSlugChar(joined[i])
    {
      if i < |a| { assert joined[i] == a[i]; }
      else if i > |a| { assert joined[i] == b[i - |a| - 1]; }
    }
    forall i, j | 0 <= i < |joined| && 0 <= j < |joined| && j == i + 1
      ensures !(joined[i] == '-' && joined[j] == '-')
    {
      if j < |a| { assert joined[i] == a[i] && joined[j] == a[j]; }
      else if i > |a| { assert joined[i] == b[i - |a| - 1] && joined[j] == b[j - |a| - 1]; }
      else if i == |a| - 1 { assert joined[i] == a[|a| - 1]; }
      else { assert joined[j] == b[0]; }
    }
    assert joined[0] == a[0] && joined[|joined| - 1] == b[|b| - 1];
  }
}
