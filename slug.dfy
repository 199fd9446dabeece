/** slugify(text) of tools/seed_issues_from_excel.py: strip, lower-case,
    replace every run of characters outside [a-zA-Z0-9] by one dash, collapse
    dash runs, strip dashes, and fall back to "tarefa" when nothing is left. */
module Slug {
  import opened Text

  const Fallback: string := "tarefa"

  predicate IsSeparator(c: char) { !IsAsciiAlnum(c) }
  predicate IsDash(c: char) { c == '-' }

  /** re.sub(r"[...]+", "-", s) where p recognises the bracketed class:
      every maximal run of characters satisfying p becomes one dash. */
  function ReplaceRuns(s: string, p: char -> bool): string
    decreases |s|
  {
    if s == [] then []
    else if p(s[0]) then "-" + ReplaceRuns(DropWhile(s[1..], p), p)
    else [s[0]] + ReplaceRuns(s[1..], p)
  }

  /** The text slugify computes before its fallback: lines 28 and 29. */
  function Normalise(text: string): string {
    var s := ReplaceRuns(ToLower(Trim(text)), IsSeparator);
    Strip(ReplaceRuns(s, IsDash), IsDash)
  }

  function Slugify(text: string): string {
    var s := Normalise(text);
    if s == [] then Fallback else s
  }

  predicate IsSlugChar(c: char) { IsAsciiLower(c) || IsAsciiDigit(c) || c == '-' }

  /** The shape of every slug: non-empty, over a-z, 0-9 and '-', with no dash
      at either end and no two dashes in a row. */
  predicate IsSlug(s: string) {
    && s != []
    && (forall i :: 0 <= i < |s| ==> IsSlugChar(s[i]))
    && s[0] != '-' && s[|s| - 1] != '-'
    && (forall i :: 0 <= i < |s| - 1 ==> !(s[i] == '-' && s[i + 1] == '-'))
  }

  /** The ASCII letters and digits of s, in order. */
  function Alnums(s: string): string {
    if s == [] then []
    else (if IsAsciiAlnum(s[0]) then [s[0]] else []) + Alnums(s[1..])
  }

  // ---------------------------------------------------------------------
  // ReplaceRuns

  /** The replacement is empty exactly when the input is, and it starts with a
      dash exactly when the input starts with a class character. */
  lemma ReplaceRunsHead(s: string, p: char -> bool)
    ensures s == [] <==> ReplaceRuns(s, p) == []
    ensures s != [] ==> ReplaceRuns(s, p)[0] == (if p(s[0]) then '-' else s[0])
  {
  }

  /** Every character of the replacement is a dash or a character outside the
      class taken from the input, so it keeps any property q of those. */
  lemma {:induction false} ReplaceRunsChars(s: string, p: char -> bool, q: char -> bool)
    requires forall i :: 0 <= i < |s| ==> !p(s[i]) ==> q(s[i])
    ensures forall i :: 0 <= i < |ReplaceRuns(s, p)| ==>
      var c := ReplaceRuns(s, p)[i]; c == '-' || (!p(c) && q(c))
    decreases |s|
  {
    if s == [] {
    } else if p(s[0]) {
      var d := DropWhile(s[1..], p);
      DropWhileSpec(s[1..], p);
      assert forall i :: 0 <= i < |d| ==> d[i] == s[|s| - |d| + i];
      ReplaceRunsChars(d, p, q);
    } else {
      ReplaceRunsChars(s[1..], p, q);
    }
  }

  /** When the dash itself belongs to the class, no two class characters are
      adjacent after the replacement. */
  lemma {:induction false} ReplaceRunsIsolated(s: string, p: char -> bool)
    requires p('-')
    ensures forall i :: 0 <= i < |ReplaceRuns(s, p)| - 1 ==>
      !(p(ReplaceRuns(s, p)[i]) && p(ReplaceRuns(s, p)[i + 1]))
    decreases |s|
  {
    if s == [] {
    } else if p(s[0]) {
      var d := DropWhile(s[1..], p);
      DropWhileSpec(s[1..], p);
      ReplaceRunsIsolated(d, p);
      ReplaceRunsHead(d, p);
    } else {
      var t := ReplaceRuns(s[1..], p);
      ReplaceRunsIsolated(s[1..], p);
      assert ReplaceRuns(s, p) == [s[0]] + t;
      ReplaceRunsHead(s[1..], p);
    }
  }

  /** A string whose class characters are isolated dashes is left unchanged. */
  lemma {:induction false} ReplaceRunsFixed(s: string, p: char -> bool)
    requires forall i :: 0 <= i < |s| ==> p(s[i]) ==> s[i] == '-'
    requires forall i :: 0 <= i < |s| - 1 ==> !(p(s[i]) && p(s[i + 1]))
    ensures ReplaceRuns(s, p) == s
    decreases |s|
  {
    if s != [] {
      ReplaceRunsFixed(s[1..], p);
      if p(s[0]) {
        assert DropWhile(s[1..], p) == s[1..];
      }
    }
  }

  /** Dropping a run of class characters stops at the first character outside
      the class. */
  lemma {:induction false} DropWhileRun(r: string, b: string, p: char -> bool)
    requires forall i :: 0 <= i < |r| ==> p(r[i])
    requires b == [] || !p(b[0])
    ensures DropWhile(r + b, p) == b
    decreases |r|
  {
    if r == [] {
      assert r + b == b;
    } else {
      assert (r + b)[1..] == r[1..] + b;
      DropWhileRun(r[1..], b, p);
    }
  }

  /** Where the dashes go: text a outside the class is copied, the maximal run
      r that follows it becomes one dash, and the replacement goes on after
      the run. */
  lemma {:induction false} ReplaceRunsJoin(a: string, r: string, b: string, p: char -> bool)
    requires forall i :: 0 <= i < |a| ==> !p(a[i])
    requires r != [] && forall i :: 0 <= i < |r| ==> p(r[i])
    requires b == [] || !p(b[0])
    ensures ReplaceRuns(a + r + b, p) == a + "-" + ReplaceRuns(b, p)
    decreases |a|
  {
    if a == [] {
      assert a + r + b == r + b;
      assert (r + b)[1..] == r[1..] + b;
      DropWhileRun(r[1..], b, p);
    } else {
      assert (a + r + b)[1..] == a[1..] + r + b;
      ReplaceRunsJoin(a[1..], r, b, p);
      assert [a[0]] + (a[1..] + "-" + ReplaceRuns(b, p)) == a + "-" + ReplaceRuns(b, p);
    }
  }

  /** A stripped string is a slice of the original, so it keeps the slug
      alphabet and the absence of "--". */
  lemma StripSlice(d: string, p: char -> bool)
    requires forall i :: 0 <= i < |d| ==> IsSlugChar(d[i])
    requires forall i :: 0 <= i < |d| - 1 ==> !(d[i] == '-' && d[i + 1] == '-')
    ensures forall i :: 0 <= i < |Strip(d, p)| ==> IsSlugChar(Strip(d, p)[i])
    ensures forall i :: 0 <= i < |Strip(d, p)| - 1 ==> !(Strip(d, p)[i] == '-' && Strip(d, p)[i + 1] == '-')
  {
    var e := Strip(d, p);
    var k := |d| - |DropWhile(d, p)|;
    DropWhileSpec(d, p);
    StripSpec(d, p);
    assert forall i :: 0 <= i < |e| ==> e[i] == d[k + i];
  }

  // ---------------------------------------------------------------------
  // Alnums

  lemma {:induction false} AlnumsAppend(a: string, b: string)
    ensures Alnums(a + b) == Alnums(a) + Alnums(b)
  {
    if a != [] {
      var h := if IsAsciiAlnum(a[0]) then [a[0]] else [];
      assert (a + b)[0] == a[0] && (a + b)[1..] == a[1..] + b;
      AlnumsAppend(a[1..], b);
      calc {
        Alnums(a + b);
        h + Alnums(a[1..] + b);
        h + (Alnums(a[1..]) + Alnums(b));
        (h + Alnums(a[1..])) + Alnums(b);
        Alnums(a) + Alnums(b);
      }
    } else {
      assert a + b == b;
    }
  }

  lemma {:induction false} AlnumsNone(s: string)
    requires forall i :: 0 <= i < |s| ==> !IsAsciiAlnum(s[i])
    ensures Alnums(s) == []
  {
    if s != [] {
      AlnumsNone(s[1..]);
    }
  }

  lemma AlnumsDropWhile(s: string, p: char -> bool)
    requires forall c :: p(c) ==> !IsAsciiAlnum(c)
    ensures Alnums(DropWhile(s, p)) == Alnums(s)
  {
    var d := DropWhile(s, p);
    var pre := s[..|s| - |d|];
    DropWhileSpec(s, p);
    assert s == pre + d;
    forall i | 0 <= i < |pre| ensures !IsAsciiAlnum(pre[i]) {
      assert p(s[i]);
    }
    AlnumsNone(pre);
    AlnumsAppend(pre, d);
  }

  lemma AlnumsDropWhileEnd(s: string, p: char -> bool)
    requires forall c :: p(c) ==> !IsAsciiAlnum(c)
    ensures Alnums(DropWhileEnd(s, p)) == Alnums(s)
  {
    var e := DropWhileEnd(s, p);
    var post := s[|e|..];
    DropWhileEndSpec(s, p);
    assert s == e + post;
    forall i | 0 <= i < |post| ensures !IsAsciiAlnum(post[i]) {
      assert p(s[|e| + i]);
    }
    AlnumsNone(post);
    AlnumsAppend(e, post);
  }

  /** Stripping characters that are not letters or digits keeps the letters
      and digits. */
  lemma AlnumsStrip(s: string, p: char -> bool)
    requires forall c :: p(c) ==> !IsAsciiAlnum(c)
    ensures Alnums(Strip(s, p)) == Alnums(s)
  {
    AlnumsDropWhile(s, p);
    AlnumsDropWhileEnd(DropWhile(s, p), p);
  }

  /** Replacing runs of non-alphanumeric characters keeps the letters and digits. */
  lemma {:induction false} AlnumsReplaceRuns(s: string, p: char -> bool)
    requires forall c :: p(c) ==> !IsAsciiAlnum(c)
    ensures Alnums(ReplaceRuns(s, p)) == Alnums(s)
    decreases |s|
  {
    if s == [] {
    } else if p(s[0]) {
      var d := DropWhile(s[1..], p);
      AlnumsReplaceRuns(d, p);
      AlnumsDropWhile(s[1..], p);
      assert ("-" + ReplaceRuns(d, p))[1..] == ReplaceRuns(d, p);
    } else {
      AlnumsReplaceRuns(s[1..], p);
      assert ([s[0]] + ReplaceRuns(s[1..], p))[1..] == ReplaceRuns(s[1..], p);
    }
  }

  lemma {:induction false} AlnumsLower(s: string)
    ensures Alnums(ToLower(s)) == ToLower(Alnums(s))
  {
    if s != [] {
      assert ToLower(s)[1..] == ToLower(s[1..]);
      AlnumsLower(s[1..]);
      var h := if IsAsciiAlnum(s[0]) then [s[0]] else [];
      assert ToLower(h + Alnums(s[1..])) == ToLower(h) + ToLower(Alnums(s[1..]));
    }
  }

  // ---------------------------------------------------------------------
  // Properties of slugify

  /** Every slug is non-empty, over [a-z0-9-], with no dash at either end and
      no "--". */
  lemma SlugifyIsSlug(text: string)
    ensures IsSlug(Slugify(text))
  {
    var b := ToLower(Trim(text));
    assert forall i :: 0 <= i < |b| ==> !IsSeparator(b[i]) ==> IsSlugChar(b[i]);
    var c := ReplaceRuns(b, IsSeparator);
    ReplaceRunsChars(b, IsSeparator, IsSlugChar);
    assert forall i :: 0 <= i < |c| ==> IsSlugChar(c[i]);
    var d := ReplaceRuns(c, IsDash);
    ReplaceRunsChars(c, IsDash, IsSlugChar);
    ReplaceRunsIsolated(c, IsDash);
    assert forall i :: 0 <= i < |d| ==> IsSlugChar(d[i]);
    forall i | 0 <= i < |d| - 1 ensures !(d[i] == '-' && d[i + 1] == '-') {
      assert !(IsDash(d[i]) && IsDash(d[i + 1]));
    }
    var e := Strip(d, IsDash);
    StripSlice(d, IsDash);
    StripSpec(d, IsDash);
    assert Normalise(text) == e;
    if e == [] {
      FallbackIsSlug();
    }
  }

  lemma FallbackIsSlug()
    ensures IsSlug(Fallback)
  {
    assert Fallback == ['t', 'a', 'r', 'e', 'f', 'a'];
  }

  /** Trimming and lower-casing keep the letters and digits, lower-cased. */
  lemma TrimLowerAlnums(text: string)
    ensures Alnums(ToLower(Trim(text))) == ToLower(Alnums(text))
  {
    AlnumsStrip(text, IsSpace);
    AlnumsLower(Trim(text));
  }

  /** The two run replacements and the dash strip keep the letters and digits. */
  lemma DashingAlnums(b: string)
    ensures Alnums(Strip(ReplaceRuns(ReplaceRuns(b, IsSeparator), IsDash), IsDash)) == Alnums(b)
  {
    var c := ReplaceRuns(b, IsSeparator);
    var d := ReplaceRuns(c, IsDash);
    AlnumsStrip(d, IsDash);
    AlnumsReplaceRuns(c, IsDash);
    AlnumsReplaceRuns(b, IsSeparator);
  }

  /** Normalising keeps exactly the input's letters and digits, lower-cased and
      in order. */
  lemma NormaliseAlnums(text: string)
    ensures Alnums(Normalise(text)) == ToLower(Alnums(text))
  {
    TrimLowerAlnums(text);
    DashingAlnums(ToLower(Trim(text)));
  }

  /** The fallback "tarefa" is taken exactly when the input has no ASCII letter
      or digit; otherwise the slug's letters and digits are the input's,
      lower-cased, in order. */
  lemma SlugifyFallback(text: string)
    ensures Normalise(text) == [] <==> Alnums(text) == []
    ensures Alnums(text) == [] ==> Slugify(text) == Fallback
    ensures Alnums(text) != [] ==> Alnums(Slugify(text)) == ToLower(Alnums(text))
  {
    NormaliseAlnums(text);
    var e := Normalise(text);
    if e != [] {
      SlugifyIsSlug(text);
      assert IsAsciiAlnum(e[0]);
      assert Alnums(e) != [];
    }
  }

  /** A slug is its own slug. */
  lemma SlugFixedPoint(s: string)
    requires IsSlug(s)
    ensures Slugify(s) == s
  {
    calc {
      Normalise(s);
      { assert !IsSpace(s[0]) && !IsSpace(s[|s| - 1]); }
      Strip(ReplaceRuns(ReplaceRuns(ToLower(s), IsSeparator), IsDash), IsDash);
      { assert ToLower(s) == s; }
      Strip(ReplaceRuns(ReplaceRuns(s, IsSeparator), IsDash), IsDash);
      { ReplaceRunsFixed(s, IsSeparator); }
      Strip(ReplaceRuns(s, IsDash), IsDash);
      { ReplaceRunsFixed(s, IsDash); }
      Strip(s, IsDash);
      s;
    }
  }

  /** slugify(slugify(t)) == slugify(t). */
  lemma SlugifyIdempotent(text: string)
    ensures Slugify(Slugify(text)) == Slugify(text)
  {
    SlugifyIsSlug(text);
    SlugFixedPoint(Slugify(text));
  }

  predicate IsWord(w: string) { w != [] && forall i :: 0 <= i < |w| ==> IsAsciiAlnum(w[i]) }
  predicate IsGap(r: string) { r != [] && forall i :: 0 <= i < |r| ==> !IsAsciiAlnum(r[i]) }

  /** Lower-casing a concatenation lower-cases each part. */
  lemma ToLowerAppend(a: string, b: string)
    ensures ToLower(a + b) == ToLower(a) + ToLower(b)
  {
    assert forall i :: 0 <= i < |a + b| ==> ToLower(a + b)[i] == (ToLower(a) + ToLower(b))[i];
  }

  /** Two words separated by a run of other characters slugify to the two
      words, lower-cased, joined by one dash. */
  lemma SlugifyTwoWords(w1: string, r: string, w2: string)
    requires IsWord(w1) && IsGap(r) && IsWord(w2)
    ensures Slugify(w1 + r + w2) == ToLower(w1) + "-" + ToLower(w2)
  {
    var t := w1 + r + w2;
    assert t[0] == w1[0] && t[|t| - 1] == w2[|w2| - 1];
    StripSpec(t, IsSpace);
    assert Trim(t) == t;
    var l1, lr, l2 := ToLower(w1), ToLower(r), ToLower(w2);
    ToLowerAppend(w1, r);
    ToLowerAppend(w1 + r, w2);
    assert ToLower(t) == l1 + lr + l2;
    assert forall i :: 0 <= i < |lr| ==> IsSeparator(lr[i]);
    assert forall i :: 0 <= i < |l2| ==> !IsSeparator(l2[i]);
    ReplaceRunsJoin(l1, lr, l2, IsSeparator);
    ReplaceRunsFixed(l2, IsSeparator);
    var c := l1 + "-" + l2;
    assert ReplaceRuns(ToLower(t), IsSeparator) == c;
    assert forall i :: 0 <= i < |c| ==> IsDash(c[i]) ==> i == |l1|;
    ReplaceRunsFixed(c, IsDash);
    assert c[0] == l1[0] && c[|c| - 1] == l2[|l2| - 1];
    StripSpec(c, IsDash);
    assert Normalise(t) == c;
  }

  /** For instance "Hello World" becomes "hello-world". */
  lemma SlugifyHelloWorld()
    ensures Slugify("Hello World") == "hello-world"
  {
    var w1, r, w2 := "Hello", " ", "World";
    assert IsWord(w1) && IsGap(r) && IsWord(w2);
    assert w1 + r + w2 == "Hello World";
    SlugifyTwoWords(w1, r, w2);
    assert ToLower(w1) == "hello" by {
      assert forall i :: 0 <= i < 5 ==> ToLower(w1)[i] == "hello"[i];
    }
    assert ToLower(w2) == "world" by {
      assert forall i :: 0 <= i < 5 ==> ToLower(w2)[i] == "world"[i];
    }
    assert "hello" + "-" + "world" == "hello-world";
  }
}
