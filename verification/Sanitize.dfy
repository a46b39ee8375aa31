/** JavaScript strings and the two string operations the chat server applies to message text:
    `String.prototype.trim` and the tag stripper of src/utils/sanitize.ts. */
module Sanitize {
  /** A JavaScript string is a sequence of 16-bit code units; `length` counts code units. */
  newtype CodeUnit = x: int | 0 <= x < 0x1_0000
  type Text = seq<CodeUnit>

  const LT: CodeUnit := 0x3C
  const GT: CodeUnit := 0x3E

  /** The white space and line terminators that `trim` removes. */
  predicate IsSpace(c: CodeUnit) {
    || 0x09 <= c <= 0x0D
    || c == 0x20
    || c == 0xA0
    || c == 0x1680
    || 0x2000 <= c <= 0x200A
    || c == 0x2028
    || c == 0x2029
    || c == 0x202F
    || c == 0x205F
    || c == 0x3000
    || c == 0xFEFF
  }

  /** The same, one by one: ECMAScript's WhiteSpace and LineTerminator code units. */
  const SPACES: set<CodeUnit> := {
    0x09, 0x0A, 0x0B, 0x0C, 0x0D, 0x20, 0xA0, 0x1680, 0x2000, 0x2001, 0x2002, 0x2003, 0x2004, 0x2005, 0x2006, 0x2007,
    0x2008, 0x2009, 0x200A, 0x2028, 0x2029, 0x202F, 0x205F, 0x3000, 0xFEFF
  }

  lemma SpacesListed(c: CodeUnit)
    ensures IsSpace(c) <==> c in SPACES
  {
  }

  function TrimStart(s: Text): Text {
    if s != [] && IsSpace(s[0]) then TrimStart(s[1..]) else s
  }

  function TrimEnd(s: Text): Text {
    if s != [] && IsSpace(s[|s| - 1]) then TrimEnd(s[..|s| - 1]) else s
  }

  function Trim(s: Text): Text {
    TrimEnd(TrimStart(s))
  }

  predicate Trimmed(s: Text) {
    s == [] || (!IsSpace(s[0]) && !IsSpace(s[|s| - 1]))
  }

  predicate AllSpace(s: Text) {
    forall c :: c in s ==> IsSpace(c)
  }

  predicate NoGt(s: Text, lo: nat, hi: nat)
    requires hi <= |s|
  {
    forall k :: lo <= k < hi ==> s[k] != GT
  }

  /** Position of the first `>` from i on, or the length of the text. */
  function FirstGt(s: Text, i: nat): (n: nat)
    requires i <= |s|
    ensures i <= n <= |s|
    ensures n < |s| ==> s[n] == GT
    ensures NoGt(s, i, n)
    decreases |s| - i
  {
    if i == |s| || s[i] == GT then i else FirstGt(s, i + 1)
  }

  /** `text.replace(/<[^>]*>/g, '')` from position i on: where a match starts, skip to just after the
      first `>`, otherwise keep the code unit. */
  function ScanFrom(s: Text, i: nat): Text
    requires i <= |s|
    decreases |s| - i
  {
    if i == |s| then [] else
      var n := FirstGt(s, i);
      if s[i] == LT && n < |s| then ScanFrom(s, n + 1) else [s[i]] + ScanFrom(s, i + 1)
  }

  function RemoveTags(s: Text): Text {
    ScanFrom(s, 0)
  }

  function StripHtmlTags(s: Text): Text {
    Trim(RemoveTags(s))
  }

  // ---------- What the stripper promises, position by position ----------

  /** Some `<` at or before position i has no `>` between it and i. */
  ghost predicate Opened(s: Text, i: nat)
    requires i < |s|
  {
    exists a :: 0 <= a <= i && s[a] == LT && NoGt(s, a, i)
  }

  /** Position i is removed: it is opened by a `<`, and a `>` at or after it closes the tag. */
  ghost predicate InTag(s: Text, i: nat) {
    i < |s| && Opened(s, i) && !NoGt(s, i, |s|)
  }

  /** The code units from position i on that lie outside every tag, in their original order. */
  ghost function OutsideTags(s: Text, i: nat): Text
    requires i <= |s|
    decreases |s| - i
  {
    if i == |s| then [] else (if InTag(s, i) then [] else [s[i]]) + OutsideTags(s, i + 1)
  }

  /** No `<` has a later `>`. */
  ghost predicate NoTag(s: Text) {
    forall i, j :: 0 <= i < j < |s| && s[i] == LT ==> s[j] != GT
  }

  // ---------- The scanner refines the specification ----------

  /** Position i is not inside a tag that a scan from the left has already entered. */
  ghost predicate ScanPoint(s: Text, i: nat) {
    i <= |s| && forall a :: 0 <= a < i && s[a] == LT && NoGt(s, a, i) ==> NoGt(s, i, |s|)
  }

  lemma {:induction false} ScannerFrom(s: Text, i: nat)
    requires ScanPoint(s, i)
    ensures ScanFrom(s, i) == OutsideTags(s, i)
    decreases |s| - i
  {
    if i < |s| {
      var kept, next := ScannerStep(s, i);
      ScannerFrom(s, next);
    }
  }

  /** One step of the scan: skip a tag, or keep one code unit. */
  lemma ScannerStep(s: Text, i: nat) returns (kept: Text, next: nat)
    requires i < |s| && ScanPoint(s, i)
    ensures i < next <= |s| && ScanPoint(s, next)
    ensures ScanFrom(s, i) == kept + ScanFrom(s, next) && OutsideTags(s, i) == kept + OutsideTags(s, next)
  {
    var n := FirstGt(s, i);
    if s[i] == LT && n < |s| {
      kept, next := [], n + 1;
      ScannerSkips(s, i, n);
    } else {
      kept, next := [s[i]], i + 1;
      KeepStep(s, i);
    }
  }

  lemma ScannerSkips(s: Text, i: nat, n: nat)
    requires i < n < |s| && n == FirstGt(s, i) && s[i] == LT
    ensures ScanFrom(s, i) == ScanFrom(s, n + 1) && OutsideTags(s, i) == OutsideTags(s, n + 1)
    ensures ScanPoint(s, n + 1)
  {
    SkipTag(s, i, i, n);
    AfterGt(s, n);
  }

  lemma InsideTag(s: Text, a: nat, i: nat, b: nat)
    requires a <= i <= b < |s| && s[a] == LT && s[b] == GT && NoGt(s, a, b)
    ensures InTag(s, i)
  {
  }

  /** Every position from the `<` at a to the first `>` after it, at b, is inside a tag. */
  lemma {:induction false} SkipTag(s: Text, a: nat, i: nat, b: nat)
    requires a <= i <= b < |s| && s[a] == LT && s[b] == GT && NoGt(s, a, b)
    ensures OutsideTags(s, i) == OutsideTags(s, b + 1)
    decreases b - i
  {
    InsideTag(s, a, i, b);
    var rest := OutsideTags(s, i + 1);
    assert OutsideTags(s, i) == [] + rest == rest;
    if i < b {
      SkipTag(s, a, i + 1, b);
    }
  }

  lemma AfterGt(s: Text, b: nat)
    requires b < |s| && s[b] == GT
    ensures ScanPoint(s, b + 1)
  {
  }

  lemma KeepStep(s: Text, i: nat)
    requires ScanPoint(s, i) && i < |s|
    requires s[i] == LT ==> NoGt(s, i, |s|)
    ensures !InTag(s, i) && ScanPoint(s, i + 1)
  {
  }

  /** The leftmost, non-overlapping matcher removes exactly the positions the pointwise definition calls
      inside a tag, and keeps every other code unit in order. */
  lemma ScannerRefinesSpec(s: Text)
    ensures RemoveTags(s) == OutsideTags(s, 0)
  {
    ScannerFrom(s, 0);
  }

  // ---------- No tag survives ----------

  lemma {:induction false} ScanSubset(s: Text, i: nat)
    requires i <= |s|
    ensures |ScanFrom(s, i)| <= |s| - i
    ensures NoGt(s, i, |s|) ==> NoGt(ScanFrom(s, i), 0, |ScanFrom(s, i)|)
    decreases |s| - i
  {
    if i < |s| {
      var n := FirstGt(s, i);
      ScanSubset(s, if s[i] == LT && n < |s| then n + 1 else i + 1);
    }
  }

  lemma {:induction false} NoTagFrom(s: Text, i: nat)
    requires i <= |s|
    ensures NoTag(ScanFrom(s, i))
    decreases |s| - i
  {
    if i < |s| {
      var n := FirstGt(s, i);
      if s[i] == LT && n < |s| {
        NoTagFrom(s, n + 1);
      } else {
        NoTagFrom(s, i + 1);
        ScanSubset(s, i + 1);
      }
    }
  }

  /** In what the stripper returns, no `<` has a later `>`. */
  lemma NoTagSurvives(s: Text)
    ensures NoTag(RemoveTags(s))
  {
    NoTagFrom(s, 0);
  }

  lemma {:induction false} UntouchedFrom(s: Text, i: nat)
    requires i <= |s| && NoTag(s)
    ensures ScanFrom(s, i) == s[i..]
    decreases |s| - i
  {
    if i < |s| {
      UntouchedFrom(s, i + 1);
    }
  }

  /** Before trimming, a text is left alone exactly when no `<` has a later `>`. */
  lemma UntouchedIffNoTag(s: Text)
    ensures RemoveTags(s) == s <==> NoTag(s)
  {
    NoTagFrom(s, 0);
    if NoTag(s) {
      UntouchedFrom(s, 0);
    }
  }

  // ---------- Trim ----------

  lemma {:induction false} TrimStartShape(s: Text) returns (k: nat)
    ensures k <= |s| && TrimStart(s) == s[k..] && AllSpace(s[..k])
    ensures TrimStart(s) == [] || !IsSpace(TrimStart(s)[0])
    decreases |s|
  {
    k := 0;
    if s != [] && IsSpace(s[0]) {
      var n := TrimStartShape(s[1..]);
      k := n + 1;
      assert s[..k] == [s[0]] + s[1..][..n];
      assert s[k..] == s[1..][n..];
    }
  }

  lemma {:induction false} TrimEndShape(s: Text)
    ensures TrimEnd(s) <= s
    ensures AllSpace(s[|TrimEnd(s)|..])
    ensures TrimEnd(s) == [] || !IsSpace(TrimEnd(s)[|TrimEnd(s)| - 1])
  {
    if s != [] && IsSpace(s[|s| - 1]) {
      var t := s[..|s| - 1];
      TrimEndShape(t);
      assert s[|TrimEnd(s)|..] == t[|TrimEnd(s)|..] + [s[|s| - 1]];
    }
  }

  /** `trim` returns the middle of its argument: white space only on both sides, none at either end. */
  lemma TrimIsMiddle(s: Text) returns (i: nat, j: nat)
    ensures i <= j <= |s| && Trim(s) == s[i..j]
    ensures AllSpace(s[..i]) && AllSpace(s[j..])
    ensures Trimmed(Trim(s))
  {
    i := TrimStartShape(s);
    var t := TrimStart(s);
    TrimEndShape(t);
    j := i + |TrimEnd(t)|;
    assert s[j..] == t[|TrimEnd(t)|..];
  }

  lemma TrimFixesTrimmed(s: Text)
    ensures Trim(s) == s <==> Trimmed(s)
  {
    var i, j := TrimIsMiddle(s);
  }

  lemma TrimKeepsNoTag(s: Text)
    requires NoTag(s)
    ensures NoTag(Trim(s))
  {
    var i, j := TrimIsMiddle(s);
    forall a, b | 0 <= a < b < |Trim(s)| && Trim(s)[a] == LT ensures Trim(s)[b] != GT {
      assert s[i + a] == LT && s[i + b] == Trim(s)[b];
    }
  }

  lemma TrimEmptyIffBlank(s: Text)
    ensures Trim(s) == [] <==> AllSpace(s)
  {
    var i, j := TrimIsMiddle(s);
    if Trim(s) == [] {
      assert s == s[..i] + s[j..];
    } else {
      assert Trim(s)[0] in s;
    }
  }

  /** Stripping leaves no tag, no outer white space, and nothing for a second pass to do. */
  lemma StripIsIdempotent(s: Text)
    ensures NoTag(StripHtmlTags(s)) && Trimmed(StripHtmlTags(s))
    ensures StripHtmlTags(StripHtmlTags(s)) == StripHtmlTags(s)
    ensures |StripHtmlTags(s)| <= |s|
  {
    NoTagSurvives(s);
    ScanSubset(s, 0);
    TrimKeepsNoTag(RemoveTags(s));
    var i, j := TrimIsMiddle(RemoveTags(s));
    UntouchedIffNoTag(StripHtmlTags(s));
    TrimFixesTrimmed(StripHtmlTags(s));
  }

  /** The stripper returns its argument exactly when that has no `<` with a later `>` and no outer white space;
      in particular "5 < 10" is kept. */
  lemma StripUntouchedIff(s: Text)
    ensures StripHtmlTags(s) == s <==> NoTag(s) && Trimmed(s)
  {
    StripIsIdempotent(s);
    UntouchedIffNoTag(s);
    TrimFixesTrimmed(s);
  }

  /** "1 < 2 > 0" is ordinary punctuation, but loses everything from the `<` to the `>`. */
  lemma PunctuationIsStripped()
    ensures RemoveTags([0x31, 0x20, LT, 0x20, 0x32, 0x20, GT, 0x20, 0x30]) == [0x31, 0x20, 0x20, 0x30]
  {
    var s: Text := [0x31, 0x20, LT, 0x20, 0x32, 0x20, GT, 0x20, 0x30];
    assert s[6] == GT && forall k :: 2 <= k < 6 ==> s[k] != GT;
    assert FirstGt(s, 2) == 6;
    assert ScanFrom(s, 9) == [];
    assert ScanFrom(s, 8) == [0x30];
    assert ScanFrom(s, 7) == [0x20, 0x30];
    assert ScanFrom(s, 2) == ScanFrom(s, 7);
    assert ScanFrom(s, 1) == [0x20, 0x20, 0x30];
    assert ScanFrom(s, 0) == [0x31, 0x20, 0x20, 0x30];
  }

  /** A code unit survives outside tags iff the scanner output contains a code unit from such a position. */
  lemma {:induction false} OutsideTagsMember(s: Text, i: nat, c: CodeUnit)
    requires i <= |s|
    ensures c in OutsideTags(s, i) <==> exists k :: i <= k < |s| && s[k] == c && !InTag(s, k)
    decreases |s| - i
  {
    if i < |s| {
      OutsideTagsMember(s, i + 1, c);
    }
  }
}
