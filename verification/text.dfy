/**
 * The JavaScript string operations the worker relies on, over `seq<char>`:
 * `split` and `join` on a one-character separator, `indexOf`, and `replace`
 * with a string pattern (first occurrence only, with the replacement
 * patterns of GetSubstitution, section 22.1.3.19.1 of ECMA-262).
 */
module Text {
  import opened Wrappers

  /** `s.split(sep)`: the maximal separator-free pieces, in order; "" gives [""]. */
  function Split(s: string, sep: char): (parts: seq<string>)
    ensures |parts| >= 1
    ensures forall i :: 0 <= i < |parts| ==> sep !in parts[i]
    decreases |s|
  {
    if s == [] then [""]
    else
      var rest := Split(s[1..], sep);
      if s[0] == sep then [""] + rest
      else [[s[0]] + rest[0]] + rest[1..]
  }

  /** `parts.join(sep)`; the empty array joins to "". */
  function Join(parts: seq<string>, sep: char): string
    decreases |parts|
  {
    if |parts| == 0 then ""
    else if |parts| == 1 then parts[0]
    else parts[0] + [sep] + Join(parts[1..], sep)
  }

  /** Joining separator-free pieces puts exactly one separator between each neighbouring two. */
  lemma {:induction false} JoinSeparators(parts: seq<string>, sep: char)
    requires |parts| >= 1
    requires forall i :: 0 <= i < |parts| ==> sep !in parts[i]
    ensures multiset(Join(parts, sep))[sep] == |parts| - 1
    decreases |parts|
  {
    assert multiset(parts[0])[sep] == 0;
    if |parts| > 1 {
      var rest := Join(parts[1..], sep);
      JoinSeparators(parts[1..], sep);
      assert multiset(parts[0] + [sep] + rest) == multiset(parts[0]) + multiset{sep} + multiset(rest);
    }
  }

  /** Joining the pieces of a split gives the string back. */
  lemma {:induction false} JoinSplit(s: string, sep: char)
    ensures Join(Split(s, sep), sep) == s
    decreases |s|
  {
    if s != [] {
      var rest := Split(s[1..], sep);
      JoinSplit(s[1..], sep);
      if s[0] == sep {
        assert ([""] + rest)[1..] == rest;
        assert s == [sep] + s[1..];
      } else {
        var parts := [[s[0]] + rest[0]] + rest[1..];
        if |rest| > 1 {
          assert parts[1..] == rest[1..];
        }
        assert s == [s[0]] + s[1..];
      }
    }
  }

  lemma {:induction false} SplitNoSeparator(a: string, sep: char)
    requires sep !in a
    ensures Split(a, sep) == [a]
    decreases |a|
  {
    if a != [] {
      SplitNoSeparator(a[1..], sep);
      assert a == [a[0]] + a[1..];
    }
  }

  /** A separator-free head followed by a separator is the first piece. */
  lemma {:induction false} SplitConcat(a: string, b: string, sep: char)
    requires sep !in a
    ensures Split(a + [sep] + b, sep) == [a] + Split(b, sep)
    decreases |a|
  {
    var s := a + [sep] + b;
    if a == [] {
      assert s[1..] == b;
    } else {
      assert s[1..] == a[1..] + [sep] + b;
      SplitConcat(a[1..], b, sep);
      assert a == [a[0]] + a[1..];
    }
  }

  /** Splitting a join of separator-free pieces gives the pieces back. */
  lemma {:induction false} SplitJoin(parts: seq<string>, sep: char)
    requires |parts| >= 1
    requires forall i :: 0 <= i < |parts| ==> sep !in parts[i]
    ensures Split(Join(parts, sep), sep) == parts
    decreases |parts|
  {
    if |parts| == 1 {
      SplitNoSeparator(parts[0], sep);
    } else {
      SplitConcat(parts[0], Join(parts[1..], sep), sep);
      SplitJoin(parts[1..], sep);
      assert parts == [parts[0]] + parts[1..];
    }
  }

  /** `pat` stands in `s` at position `i`. */
  predicate OccursAt(s: string, pat: string, i: nat)
  {
    i + |pat| <= |s| && s[i..i + |pat|] == pat
  }

  predicate Contains(s: string, pat: string)
  {
    exists i: nat | i <= |s| :: OccursAt(s, pat, i)
  }

  function IndexOfFrom(s: string, pat: string, from: nat): (r: Option<nat>)
    ensures r.Some? ==> from <= r.value && OccursAt(s, pat, r.value)
    ensures r.Some? ==> forall j: nat :: from <= j < r.value ==> !OccursAt(s, pat, j)
    ensures r.None? ==> forall j: nat :: from <= j ==> !OccursAt(s, pat, j)
    decreases |s| - from
  {
    if from + |pat| > |s| then None
    else if s[from..from + |pat|] == pat then Some(from)
    else IndexOfFrom(s, pat, from + 1)
  }

  /** `s.indexOf(pat)`: the first position where `pat` stands, or None for -1. */
  function IndexOf(s: string, pat: string): (r: Option<nat>)
    ensures r.Some? ==> OccursAt(s, pat, r.value) && forall j: nat :: j < r.value ==> !OccursAt(s, pat, j)
    ensures r.None? <==> !Contains(s, pat)
  {
    IndexOfFrom(s, pat, 0)
  }

  /**
   * The replacement text for one match: "$$" is "$", "$&" the matched text,
   * "$`" the text before the match and "$'" the text after it; with a string
   * pattern there are no capture groups, so every other "$" is literal, and
   * a replacement without '$' is inserted as it is.
   */
  function Substitution(replacement: string, matched: string, before: string, after: string): (r: string)
    ensures '$' !in replacement ==> r == replacement
    ensures replacement == "$$" ==> r == "$"
    ensures replacement == "$&" ==> r == matched
    ensures replacement == "$`" ==> r == before
    ensures replacement == "$'" ==> r == after
    decreases |replacement|
  {
    if |replacement| == 0 then ""
    else if replacement[0] == '$' && |replacement| >= 2 && replacement[1] in "$&`'" then
      var expansion :=
        if replacement[1] == '$' then "$"
        else if replacement[1] == '&' then matched
        else if replacement[1] == '`' then before
        else after;
      assert |replacement| == 2 ==> replacement[2..] == "";
      expansion + Substitution(replacement[2..], matched, before, after)
    else
      assert replacement == [replacement[0]] + replacement[1..];
      [replacement[0]] + Substitution(replacement[1..], matched, before, after)
  }

  /** A '$'-free head of the replacement is copied as it is, and the rest substituted after it. */
  lemma {:induction false} SubstitutionLiteralHead(a: string, b: string, matched: string, before: string, after: string)
    requires '$' !in a
    ensures Substitution(a + b, matched, before, after) == a + Substitution(b, matched, before, after)
    decreases |a|
  {
    if |a| > 0 {
      var s := a + b;
      assert s[0] == a[0] && s[1..] == a[1..] + b;
      var rest := Substitution(b, matched, before, after);
      SubstitutionLiteralStep(s, matched, before, after);
      SubstitutionLiteralHead(a[1..], b, matched, before, after);
      assert [a[0]] + (a[1..] + rest) == a + rest;
    } else {
      assert a + b == b;
    }
  }

  /** A first character other than '$' is copied. */
  lemma SubstitutionLiteralStep(s: string, matched: string, before: string, after: string)
    requires |s| > 0 && s[0] != '$'
    ensures Substitution(s, matched, before, after) == [s[0]] + Substitution(s[1..], matched, before, after)
  {
  }

  /** Each of "$$", "$&", "$`" and "$'" expands on its own, whatever follows it. */
  lemma SubstitutionPatternHead(p: string, b: string, matched: string, before: string, after: string)
    requires p == "$$" || p == "$&" || p == "$`" || p == "$'"
    ensures Substitution(p + b, matched, before, after)
         == Substitution(p, matched, before, after) + Substitution(b, matched, before, after)
  {
    var s := p + b;
    assert s[0] == '$' && s[1] == p[1] && s[2..] == b;
  }

  /** Any other '$' (a lone or final one, "$1", "$<") is copied literally. */
  lemma SubstitutionOtherDollar(b: string, matched: string, before: string, after: string)
    requires |b| == 0 || b[0] !in "$&`'"
    ensures Substitution("$" + b, matched, before, after) == "$" + Substitution(b, matched, before, after)
  {
    var s := "$" + b;
    assert s[0] == '$' && s[1..] == b;
  }

  /** A pattern between two '$'-free texts: "x$&y" gives "x", the match, then "y". */
  lemma SubstitutionInside(a: string, p: string, c: string, matched: string, before: string, after: string)
    requires '$' !in a && '$' !in c
    requires p == "$$" || p == "$&" || p == "$`" || p == "$'"
    ensures Substitution(a + p + c, matched, before, after) == a + Substitution(p, matched, before, after) + c
  {
    assert a + p + c == a + (p + c);
    SubstitutionLiteralHead(a, p + c, matched, before, after);
    SubstitutionPatternHead(p, c, matched, before, after);
  }

  /**
   * `s.replace(pat, replacement)` with a string pattern: a string without
   * the pattern is unchanged; otherwise only the first occurrence is
   * replaced, and with a '$'-free replacement by the replacement itself.
   */
  function ReplaceFirst(s: string, pat: string, replacement: string): (r: string)
    ensures IndexOf(s, pat).None? ==> r == s
    ensures IndexOf(s, pat).Some? && '$' !in replacement ==>
      var i := IndexOf(s, pat).value;
      r == s[..i] + replacement + s[i + |pat|..]
  {
    match IndexOf(s, pat)
    case None => s
    case Some(i) =>
      s[..i] + Substitution(replacement, pat, s[..i], s[i + |pat|..]) + s[i + |pat|..]
  }

  /** Without an occurrence the string is unchanged. */
  lemma ReplaceFirstAbsent(s: string, pat: string, replacement: string)
    requires !Contains(s, pat)
    ensures ReplaceFirst(s, pat, replacement) == s
  {
  }

  /**
   * With an occurrence and a '$'-free replacement, exactly the first
   * occurrence is cut out and the replacement put in its place.
   */
  lemma ReplaceFirstLiteral(s: string, pat: string, replacement: string, i: nat)
    requires OccursAt(s, pat, i)
    requires forall j: nat :: j < i ==> !OccursAt(s, pat, j)
    requires '$' !in replacement
    ensures ReplaceFirst(s, pat, replacement) == s[..i] + replacement + s[i + |pat|..]
  {
    assert IndexOf(s, pat) == Some(i);
  }

  /** With no occurrence before `pre` ends, the first occurrence in `pre + pat + suf` is right after `pre`. */
  lemma FirstOccurrenceAt(pre: string, pat: string, suf: string)
    requires forall j: nat :: j < |pre| ==> !OccursAt(pre + pat + suf, pat, j)
    ensures IndexOf(pre + pat + suf, pat) == Some(|pre|)
  {
    var s := pre + pat + suf;
    assert OccursAt(s, pat, |pre|) by {
      assert s[|pre|..|pre| + |pat|] == pat;
    }
  }

  /** When the pattern's first character does not appear in `pre`, the first occurrence in `pre + pat + suf` is right after `pre`. */
  lemma FirstOccurrence(pre: string, pat: string, suf: string)
    requires |pat| > 0 && pat[0] !in pre
    ensures IndexOf(pre + pat + suf, pat) == Some(|pre|)
  {
    var s := pre + pat + suf;
    forall j: nat | j < |pre| ensures !OccursAt(s, pat, j) {
      assert s[j] == pre[j];
    }
    FirstOccurrenceAt(pre, pat, suf);
  }
}
