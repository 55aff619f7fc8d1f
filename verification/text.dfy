/** String primitives with the JavaScript semantics the pages rely on.

    Strings are sequences of UTF-16 code units: every `char` is assumed to lie
    in the Basic Multilingual Plane, so `length`, `slice` and `charCodeAt`
    count and return single `char`s. */
module Text {
  import opened Wrappers
  import Seqs

  /** The characters JavaScript's `\s` class and `String.prototype.trim`
      both treat as white space: WhiteSpace and LineTerminator of
      ECMAScript (section 12.2 and 12.3 of ECMA-262), with the Unicode
      space separators (category Zs) spelled out. */
  predicate IsSpace(c: char) {
    || c == '\t' || c == '\n' || c == '\U{000B}' || c == '\U{000C}' || c == '\r'
    || c == ' ' || c == '\U{00A0}' || c == '\U{1680}'
    || ('\U{2000}' <= c <= '\U{200A}')
    || c == '\U{2028}' || c == '\U{2029}' || c == '\U{202F}' || c == '\U{205F}'
    || c == '\U{3000}' || c == '\U{FEFF}'
  }

  /** Every character of `s` satisfies `p`. */
  predicate All(s: string, p: char -> bool) {
    forall k :: 0 <= k < |s| ==> p(s[k])
  }

  /** No character of `s` satisfies `p`. */
  predicate NoneOf(s: string, p: char -> bool) {
    forall k :: 0 <= k < |s| ==> !p(s[k])
  }

  /** No string of `xs` holds a character satisfying `p`. */
  predicate EachNoneOf(xs: seq<string>, p: char -> bool) {
    forall k :: 0 <= k < |xs| ==> NoneOf(xs[k], p)
  }

  lemma EachNoneOfCons(x: string, xs: seq<string>, p: char -> bool)
    requires NoneOf(x, p) && EachNoneOf(xs, p)
    ensures EachNoneOf([x] + xs, p)
  {
    forall k | 0 <= k < |[x] + xs| ensures NoneOf(([x] + xs)[k], p) {
      if k > 0 {
        assert ([x] + xs)[k] == xs[k - 1];
      }
    }
  }

  lemma EachNoneOfTail(xs: seq<string>, p: char -> bool)
    requires |xs| > 0 && EachNoneOf(xs, p)
    ensures NoneOf(xs[0], p) && EachNoneOf(xs[1..], p)
  {
    forall k | 0 <= k < |xs| - 1 ensures NoneOf(xs[1..][k], p) {
      assert xs[1..][k] == xs[k + 1];
    }
  }

  lemma EachNoneOfElements(xs: seq<string>, ys: seq<string>, p: char -> bool)
    requires EachNoneOf(ys, p)
    requires forall k :: 0 <= k < |xs| ==> xs[k] in ys
    ensures EachNoneOf(xs, p)
  {
    forall k | 0 <= k < |xs| ensures NoneOf(xs[k], p) {
      var i :| 0 <= i < |ys| && ys[i] == xs[k];
    }
  }

  /** `!s.trim()`: the string is empty or made of white space only. */
  predicate IsBlank(s: string) {
    All(s, IsSpace)
  }

  /** Every string of `xs` is blank. */
  predicate AllBlank(xs: seq<string>) {
    forall k :: 0 <= k < |xs| ==> IsBlank(xs[k])
  }

  lemma AllBlankCons(xs: seq<string>)
    requires |xs| > 0
    ensures AllBlank(xs) <==> IsBlank(xs[0]) && AllBlank(xs[1..])
  {
    assert forall k :: 1 <= k < |xs| ==> xs[k] == xs[1..][k - 1];
  }

  /** A string `trim` leaves unchanged. */
  predicate IsTrimmed(s: string) {
    s == [] || (!IsSpace(s[0]) && !IsSpace(s[|s| - 1]))
  }

  predicate StartsWith(s: string, prefix: string) {
    |prefix| <= |s| && s[..|prefix|] == prefix
  }

  /** `needle` occurs in `hay` starting at position `i`. */
  predicate OccursAt(hay: string, needle: string, i: int) {
    0 <= i <= |hay| - |needle| && hay[i..i + |needle|] == needle
  }

  /** `needle` occurs as a contiguous substring of `hay`. */
  predicate Contains(hay: string, needle: string) {
    exists i :: 0 <= i <= |hay| - |needle| && OccursAt(hay, needle, i)
  }

  function TrimStart(s: string): (r: string)
    ensures |r| <= |s| && r == s[|s| - |r|..]
    ensures forall k :: 0 <= k < |s| - |r| ==> IsSpace(s[k])
    ensures r == [] || !IsSpace(r[0])
  {
    if |s| > 0 && IsSpace(s[0]) then
      var r := TrimStart(s[1..]);
      assert s[1..][|s| - 1 - |r|..] == s[|s| - |r|..];
      assert forall k :: 0 < k < |s| - |r| ==> s[k] == s[1..][k - 1];
      r
    else s
  }

  function TrimEnd(s: string): (r: string)
    ensures |r| <= |s| && r == s[..|r|]
    ensures forall k :: |r| <= k < |s| ==> IsSpace(s[k])
    ensures r == [] || !IsSpace(r[|r| - 1])
  {
    if |s| > 0 && IsSpace(s[|s| - 1]) then TrimEnd(s[..|s| - 1]) else s
  }

  /** Where the trimmed text starts in `s`. */
  function TrimOffset(s: string): nat {
    |s| - |TrimStart(s)|
  }

  lemma TrimStartEmpty(s: string)
    ensures TrimStart(s) == [] <==> IsBlank(s)
  {
    var t := TrimStart(s);
    if t != [] {
      assert s[|s| - |t|] == t[0];
    }
  }

  lemma TrimEndEmpty(s: string)
    ensures TrimEnd(s) == [] <==> IsBlank(s)
  {
    var t := TrimEnd(s);
    if t != [] {
      assert s[|t| - 1] == t[|t| - 1];
    }
  }

  /** A string starting with a non-space character is blank only when
      empty. */
  lemma BlankOnlyIfEmpty(t: string)
    requires t == [] || !IsSpace(t[0])
    ensures IsBlank(t) <==> t == []
  {
  }

  /** A prefix of a suffix sits at the suffix's offset. */
  lemma PrefixOfSuffix(s: string, t: string, r: string)
    requires |t| <= |s| && t == s[|s| - |t|..]
    requires |r| <= |t| && r == t[..|r|]
    ensures OccursAt(s, r, |s| - |t|)
  {
    assert s[|s| - |t|..|s| - |t| + |r|] == t[..|r|];
  }

  /** A prefix of a string keeps its first character. */
  lemma PrefixKeepsHead(t: string, r: string)
    requires |r| <= |t| && r == t[..|r|]
    ensures r == [] || r[0] == t[0]
  {
  }

  lemma TrimBothIsTrimmed(s: string)
    ensures IsTrimmed(TrimEnd(TrimStart(s)))
  {
    var t := TrimStart(s);
    PrefixKeepsHead(t, TrimEnd(t));
  }

  lemma TrimBothEmpty(s: string)
    ensures TrimEnd(TrimStart(s)) == [] <==> IsBlank(s)
  {
    var t := TrimStart(s);
    TrimStartEmpty(s);
    TrimEndEmpty(t);
    BlankOnlyIfEmpty(t);
  }

  lemma TrimBothOccurs(s: string)
    ensures OccursAt(s, TrimEnd(TrimStart(s)), TrimOffset(s))
  {
    var t := TrimStart(s);
    var r := TrimEnd(t);
    assert |t| <= |s| && t == s[|s| - |t|..];
    assert |r| <= |t| && r == t[..|r|];
    PrefixOfSuffix(s, t, r);
  }

  /** Everything after the trimmed text is white space. */
  lemma TrimBothTrailing(s: string)
    ensures TrimOffset(s) + |TrimEnd(TrimStart(s))| <= |s|
    ensures forall k :: TrimOffset(s) + |TrimEnd(TrimStart(s))| <= k < |s| ==> IsSpace(s[k])
  {
    var t := TrimStart(s);
    SpacesAfterPrefixOfSuffix(s, t, TrimEnd(t));
  }

  /** White space that ends a suffix of `s` ends `s`. */
  lemma SpacesAfterPrefixOfSuffix(s: string, t: string, r: string)
    requires |t| <= |s| && t == s[|s| - |t|..] && |r| <= |t|
    requires forall m :: |r| <= m < |t| ==> IsSpace(t[m])
    ensures forall k :: |s| - |t| + |r| <= k < |s| ==> IsSpace(s[k])
  {
    var i := |s| - |t|;
    forall k | i + |r| <= k < |s| ensures IsSpace(s[k]) {
      assert s[k] == t[k - i];
    }
  }

  /** `s.trim()`: `s` without its leading and trailing white space. The
      result sits at `TrimOffset(s)`, with only white space before and
      after it, and neither starts nor ends with white space; so it is the
      one such substring. */
  function Trim(s: string): (r: string)
    ensures IsTrimmed(r)
    ensures r == [] <==> IsBlank(s)
    ensures OccursAt(s, r, TrimOffset(s))
    ensures forall k :: 0 <= k < TrimOffset(s) ==> IsSpace(s[k])
    ensures forall k :: TrimOffset(s) + |r| <= k < |s| ==> IsSpace(s[k])
  {
    var r := TrimEnd(TrimStart(s));
    assert IsTrimmed(r) by { TrimBothIsTrimmed(s); }
    assert r == [] <==> IsBlank(s) by { TrimBothEmpty(s); }
    assert OccursAt(s, r, TrimOffset(s)) by { TrimBothOccurs(s); }
    assert forall k :: TrimOffset(s) + |r| <= k < |s| ==> IsSpace(s[k]) by { TrimBothTrailing(s); }
    r
  }

  /** The trimmed text is a substring of the original. */
  lemma TrimIsSubstring(s: string)
    ensures Contains(s, Trim(s))
  {
    assert OccursAt(s, Trim(s), TrimOffset(s));
  }

  /** A string without white space is its own trim. */
  lemma TrimOfUnspaced(s: string)
    requires NoneOf(s, IsSpace)
    ensures Trim(s) == s
  {
  }

  /** Trimming is idempotent: a trimmed string is its own trim. */
  lemma TrimOfTrimmed(s: string)
    requires IsTrimmed(s)
    ensures Trim(s) == s
  {
  }

  /** A slice keeps a property every character has. */
  lemma SliceNoneOf(s: string, i: nat, j: nat, p: char -> bool)
    requires i <= j <= |s| && NoneOf(s, p)
    ensures NoneOf(s[i..j], p)
  {
    forall k | 0 <= k < j - i ensures !p(s[i..j][k]) {
      assert s[i..j][k] == s[i + k];
    }
  }

  /** Characters of a trimmed string all come from the original. */
  lemma TrimKeepsOnly(s: string, p: char -> bool)
    ensures NoneOf(s, p) ==> NoneOf(Trim(s), p)
  {
    if NoneOf(s, p) {
      var r := Trim(s);
      var i := TrimOffset(s);
      assert OccursAt(s, r, i);
      SliceNoneOf(s, i, i + |r|, p);
    }
  }

  /** `value || null` on a string: only the empty string is falsy, so only
      it becomes absent (`null`, or a key left out). */
  function OrNull(value: string): (r: Option<string>)
    ensures r.None? <==> value == ""
    ensures r.Some? ==> r.value == value
  {
    if value == "" then None else Some(value)
  }

  /** `toLowerCase` on one character; only ASCII letters are case-mapped. */
  function LowerChar(c: char): char {
    if 'A' <= c <= 'Z' then (c as int + 32) as char else c
  }

  /** `s.toLowerCase()` with the ASCII-only case mapping of `LowerChar`. */
  function ToLower(s: string): (r: string)
    ensures |r| == |s|
  {
    seq(|s|, k requires 0 <= k < |s| => LowerChar(s[k]))
  }

  /** Each ASCII upper-case letter moves to its lower-case letter, 32 code
      points on, and every other character stays. */
  lemma ToLowerMapsAsciiLetters(s: string)
    ensures forall k :: 0 <= k < |s| && 'A' <= s[k] <= 'Z' ==> ToLower(s)[k] as int == s[k] as int + 32
    ensures forall k :: 0 <= k < |s| && !('A' <= s[k] <= 'Z') ==> ToLower(s)[k] == s[k]
  {
  }

  predicate HasUpper(s: string) {
    exists k :: 0 <= k < |s| && 'A' <= s[k] <= 'Z'
  }

  lemma LowerHasNoUpper(s: string)
    ensures !HasUpper(ToLower(s))
  {
  }

  /** Lower-casing twice is lower-casing once. */
  lemma ToLowerIdempotent(s: string)
    ensures ToLower(ToLower(s)) == ToLower(s)
  {
    LowerHasNoUpper(s);
  }

  // ----- splitting on separator runs -----

  /** The end of the separator run that starts at `i`. */
  function SkipSeps(s: string, sep: char -> bool, i: nat): (k: nat)
    requires i <= |s|
    ensures i <= k <= |s|
    ensures forall m :: i <= m < k ==> sep(s[m])
    ensures k < |s| ==> !sep(s[k])
    decreases |s| - i
  {
    if i == |s| || !sep(s[i]) then i else SkipSeps(s, sep, i + 1)
  }

  /** `s.split(/[sep]+/)`: the pieces between maximal runs of separator
      characters. A leading (trailing) run yields an empty first (last)
      piece, and the empty string splits into `[""]`. Read from the front:
      a separator that follows another one adds nothing, any other
      separator opens a new piece, and any other character extends the
      current piece. */
  function SplitOnRuns(s: string, sep: char -> bool): (r: seq<string>)
    ensures |r| >= 1
    ensures forall k :: 0 <= k < |r| ==> NoneOf(r[k], sep)
    ensures forall k :: 0 < k < |r| - 1 ==> r[k] != []
    ensures r[0] == [] <==> s == [] || sep(s[0])
  {
    if s == [] then [""]
    else
      var rest := SplitOnRuns(s[1..], sep);
      if sep(s[0]) then
        if |s| > 1 && sep(s[1]) then rest else [""] + rest
      else
        var first := [s[0]] + rest[0];
        assert NoneOf(first, sep) by {
          assert forall k :: 1 <= k < |first| ==> first[k] == rest[0][k - 1];
        }
        [first] + rest[1..]
  }

  /** Text without a separator is a single piece. */
  lemma {:induction false} SplitOnRunsUnseparated(s: string, sep: char -> bool)
    requires NoneOf(s, sep)
    ensures SplitOnRuns(s, sep) == [s]
    decreases |s|
  {
    if s != [] {
      SplitOnRunsUnseparated(s[1..], sep);
      assert [s[0]] + s[1..] == s;
    }
  }

  /** Text without a separator before `t` extends the first piece of `t`. */
  lemma {:induction false} SplitOnRunsPrefix(p: string, t: string, sep: char -> bool)
    requires NoneOf(p, sep)
    ensures SplitOnRuns(p + t, sep) == [p + SplitOnRuns(t, sep)[0]] + SplitOnRuns(t, sep)[1..]
    decreases |p|
  {
    var r := SplitOnRuns(t, sep);
    if p == [] {
      assert p + t == t && p + r[0] == r[0];
      assert [r[0]] + r[1..] == r;
    } else {
      var s := p + t;
      assert s[0] == p[0] && s[1..] == p[1..] + t;
      assert NoneOf(p[1..], sep) by {
        forall k | 0 <= k < |p[1..]| ensures !sep(p[1..][k]) { assert p[1..][k] == p[k + 1]; }
      }
      SplitOnRunsPrefix(p[1..], t, sep);
      assert [p[0]] + (p[1..] + r[0]) == p + r[0];
    }
  }

  /** Splitting on separator runs undoes joining with one separator, as long
      as no piece is empty or holds a separator itself. */
  lemma {:induction false} SplitOnRunsUndoesJoin(ps: seq<string>, c: char, sep: char -> bool)
    requires |ps| >= 1 && sep(c)
    requires forall k :: 0 <= k < |ps| ==> ps[k] != [] && NoneOf(ps[k], sep)
    ensures SplitOnRuns(Seqs.Join(ps, [c]), sep) == ps
    decreases |ps|
  {
    if |ps| == 1 {
      SplitOnRunsUnseparated(ps[0], sep);
      assert Seqs.Join(ps, [c]) == ps[0] && [ps[0]] == ps;
    } else {
      var tail := ps[1..];
      forall k | 0 <= k < |tail| ensures tail[k] != [] && NoneOf(tail[k], sep) {
        assert tail[k] == ps[k + 1];
      }
      SplitOnRunsUndoesJoin(tail, c, sep);
      var j := Seqs.Join(tail, [c]);
      JoinHead(tail, [c]);
      assert tail[0][0] == ps[1][0] && !sep(ps[1][0]);
      var t := [c] + j;
      assert t[0] == c && t[1..] == j && t[1] == j[0];
      assert SplitOnRuns(t, sep) == [""] + tail;
      assert Seqs.Join(ps, [c]) == ps[0] + t;
      SplitOnRunsPrefix(ps[0], t, sep);
      assert SplitOnRuns(t, sep)[0] == "" && ps[0] + "" == ps[0];
      assert SplitOnRuns(t, sep)[1..] == tail;
      assert [ps[0]] + tail == ps;
    }
  }

  /** `s` with every separator character removed. */
  function RemoveSeps(s: string, sep: char -> bool): string {
    if |s| == 0 then [] else (if sep(s[0]) then [] else [s[0]]) + RemoveSeps(s[1..], sep)
  }

  /** Splitting drops exactly the separators: gluing the pieces back
      together gives `s` with every separator character removed. */
  lemma {:induction false} SplitOnRunsConcat(s: string, sep: char -> bool)
    ensures Seqs.Concat(SplitOnRuns(s, sep)) == RemoveSeps(s, sep)
    decreases |s|
  {
    if s == [] {
      assert Seqs.Concat([""]) == "" + Seqs.Concat([]);
    } else {
      var rest := SplitOnRuns(s[1..], sep);
      SplitOnRunsConcat(s[1..], sep);
      if sep(s[0]) {
        assert ([""] + rest)[1..] == rest;
      } else {
        var first := [s[0]] + rest[0];
        assert ([first] + rest[1..])[1..] == rest[1..];
        assert Seqs.Concat(rest) == rest[0] + Seqs.Concat(rest[1..]);
        assert first + Seqs.Concat(rest[1..]) == [s[0]] + Seqs.Concat(rest);
      }
    }
  }

  /** Every string of `xs` is empty. */
  predicate AllEmpty(xs: seq<string>) {
    forall k :: 0 <= k < |xs| ==> xs[k] == []
  }

  /** Every piece is empty exactly when `s` holds nothing but separators. */
  lemma SplitOnRunsAllEmpty(s: string, sep: char -> bool)
    ensures AllEmpty(SplitOnRuns(s, sep)) <==> All(s, sep)
  {
    var r := SplitOnRuns(s, sep);
    SplitOnRunsConcat(s, sep);
    ConcatEmpty(r);
    RemoveSepsEmpty(s, sep);
  }

  lemma {:induction false} ConcatEmpty(xss: seq<string>)
    ensures Seqs.Concat(xss) == [] <==> AllEmpty(xss)
    decreases |xss|
  {
    if |xss| > 0 {
      ConcatEmpty(xss[1..]);
      assert forall k :: 1 <= k < |xss| ==> xss[k] == xss[1..][k - 1];
    }
  }

  lemma {:induction false} RemoveSepsEmpty(s: string, sep: char -> bool)
    ensures RemoveSeps(s, sep) == [] <==> All(s, sep)
    decreases |s|
  {
    if |s| > 0 {
      RemoveSepsEmpty(s[1..], sep);
      assert forall k :: 1 <= k < |s| ==> s[k] == s[1..][k - 1];
    }
  }

  // ----- splitting into paragraphs -----

  /** `t` holds no two consecutive newlines. */
  predicate NoBlankLine(t: string) {
    forall k :: 0 <= k < |t| - 1 ==> !(t[k] == '\n' && t[k + 1] == '\n')
  }

  function IsNewline(c: char): bool { c == '\n' }

  /** The first position of two consecutive newlines at or after `i`, or `|s|`. */
  function FindBlankLine(s: string, i: nat): (k: nat)
    requires i <= |s|
    ensures i <= k <= |s|
    ensures k < |s| ==> k + 1 < |s| && s[k] == '\n' && s[k + 1] == '\n'
    ensures forall m :: i <= m < k && m + 1 < |s| ==> !(s[m] == '\n' && s[m + 1] == '\n')
    decreases |s| - i
  {
    if i + 1 >= |s| then |s|
    else if s[i] == '\n' && s[i + 1] == '\n' then i
    else FindBlankLine(s, i + 1)
  }

  /** `s.split(/\n{2,}/)`: the pieces between maximal runs of two or more
      newlines; a single newline stays inside its piece. */
  function SplitParagraphs(s: string): (r: seq<string>)
    ensures |r| >= 1
    ensures forall k :: 0 <= k < |r| ==> NoBlankLine(r[k])
    ensures |r| == 1 <==> NoBlankLine(s)
    ensures NoBlankLine(s) ==> r == [s]
    decreases |s|
  {
    var i := FindBlankLine(s, 0);
    if i == |s| then [s]
    else
      var j := SkipSeps(s, IsNewline, i);
      assert !NoBlankLine(s) by { assert s[i] == '\n' && s[i + 1] == '\n'; }
      [s[..i]] + SplitParagraphs(s[j..])
  }

  /** A piece that survives a round trip through blank-line joining:
      non-empty, no blank line inside, no newline at either end. */
  predicate IsParagraph(p: string) {
    p != [] && NoBlankLine(p) && p[0] != '\n' && p[|p| - 1] != '\n'
  }

  lemma {:induction false} JoinHead(xs: seq<string>, sep: string)
    requires |xs| >= 1 && xs[0] != []
    ensures Seqs.Join(xs, sep) != [] && Seqs.Join(xs, sep)[0] == xs[0][0]
  {
    if |xs| > 1 {
      assert Seqs.Join(xs, sep) == xs[0] + (sep + Seqs.Join(xs[1..], sep));
    }
  }

  /** Splitting on blank lines undoes joining with a blank line. */
  lemma {:induction false} SplitParagraphsUndoesJoin(ps: seq<string>)
    requires |ps| >= 1 && forall k :: 0 <= k < |ps| ==> IsParagraph(ps[k])
    ensures SplitParagraphs(Seqs.Join(ps, "\n\n")) == ps
    decreases |ps|
  {
    if |ps| > 1 {
      var p := ps[0];
      var rest := Seqs.Join(ps[1..], "\n\n");
      var s := Seqs.Join(ps, "\n\n");
      assert s == p + "\n\n" + rest;
      assert IsParagraph(ps[1..][0]);
      JoinHead(ps[1..], "\n\n");
      var i := FindBlankLine(s, 0);
      assert s[|p|] == '\n' && s[|p| + 1] == '\n';
      assert s[|p| + 2] == rest[0] && rest[0] != '\n';
      assert i == |p|;
      var j := SkipSeps(s, IsNewline, i);
      assert j == |p| + 2;
      assert s[..i] == p;
      assert s[j..] == rest;
      forall k | 0 <= k < |ps[1..]| ensures IsParagraph(ps[1..][k]) {
        assert ps[1..][k] == ps[k + 1];
      }
      SplitParagraphsUndoesJoin(ps[1..]);
    } else {
      assert IsParagraph(ps[0]);
    }
  }
}
