/**
  The three Python string operations the supervisor relies on, with the
  facts about them that the rest of the model uses:
  - `str.replace(old, new)`: every non-overlapping occurrence, scanned left to right;
  - `sep.join(parts)`;
  - `str.split(sep)` with a one-character separator, the inverse of `join`.
 */
module Strings {

  /** `pat` occurs in `s` starting at index `i`. */
  predicate OccursAt(s: string, pat: string, i: int) {
    0 <= i && i + |pat| <= |s| && s[i..i + |pat|] == pat
  }

  /** `pat` occurs nowhere in `s`. */
  ghost predicate Absent(s: string, pat: string) {
    forall i :: !OccursAt(s, pat, i)
  }

  /** No occurrence of `pat` in `a + b` starts inside `a` and ends inside `b`. */
  ghost predicate NoStraddle(a: string, b: string, pat: string) {
    forall i :: 0 <= i < |a| < i + |pat| ==> !OccursAt(a + b, pat, i)
  }

  /** Text without curly braces: no part of it can belong to a `{{NAME}}` placeholder. */
  predicate BraceFree(s: string) {
    forall i :: 0 <= i < |s| ==> s[i] != '{' && s[i] != '}'
  }

  /** Every one of `parts` is brace-free. */
  ghost predicate AllBraceFree(parts: seq<string>) {
    forall i :: 0 <= i < |parts| ==> BraceFree(parts[i])
  }

  /**
    Python's `s.replace(pat, rep)`. A non-empty pattern is matched left to right
    and each match is skipped over once replaced; the empty pattern matches before
    every character and at the end.
   */
  function Replace(s: string, pat: string, rep: string): string
    decreases |s|
  {
    if pat == [] then
      if s == [] then rep else rep + [s[0]] + Replace(s[1..], pat, rep)
    else if |s| < |pat| then s
    else if s[..|pat|] == pat then rep + Replace(s[|pat|..], pat, rep)
    else [s[0]] + Replace(s[1..], pat, rep)
  }

  /** Replacing a pattern that does not occur leaves the text unchanged. */
  lemma {:induction false} ReplaceAbsent(s: string, pat: string, rep: string)
    requires pat != []
    requires Absent(s, pat)
    ensures Replace(s, pat, rep) == s
    decreases |s|
  {
    if |s| >= |pat| {
      assert !OccursAt(s, pat, 0);
      forall i ensures !OccursAt(s[1..], pat, i) {
        assert !OccursAt(s, pat, i + 1);
        if 0 <= i && i + |pat| <= |s| - 1 {
          assert s[1..][i..i + |pat|] == s[i + 1..i + 1 + |pat|];
        }
      }
      ReplaceAbsent(s[1..], pat, rep);
      assert [s[0]] + s[1..] == s;
    }
  }

  /** A text that is exactly the pattern becomes exactly the replacement. */
  lemma ReplaceWhole(pat: string, rep: string)
    requires pat != []
    ensures Replace(pat, pat, rep) == rep
  {
    assert pat[..|pat|] == pat;
    assert pat[|pat|..] == [];
    assert Replace([], pat, rep) == [];
  }

  /**
    Replacement distributes over concatenation when no occurrence of the pattern
    crosses the boundary between the two parts.
   */
  lemma {:induction false} ReplaceConcat(a: string, b: string, pat: string, rep: string)
    requires pat != []
    requires NoStraddle(a, b, pat)
    ensures Replace(a + b, pat, rep) == Replace(a, pat, rep) + Replace(b, pat, rep)
    decreases |a|
  {
    var n := |pat|;
    if a == [] {
      assert a + b == b;
    } else if |a + b| < n {
      assert Replace(b, pat, rep) == b;
    } else if (a + b)[..n] == pat {
      assert OccursAt(a + b, pat, 0);
      assert n <= |a|;
      NoStraddleShift(a, b, pat, n);
      ReplaceConcat(a[n..], b, pat, rep);
      ReplaceConcatMatch(a, b, pat, rep);
    } else {
      NoStraddleShift(a, b, pat, 1);
      ReplaceConcat(a[1..], b, pat, rep);
      ReplaceConcatSkip(a, b, pat, rep);
    }
  }

  /** Dropping a prefix of `a` keeps the boundary free of straddling occurrences. */
  lemma {:induction false} NoStraddleShift(a: string, b: string, pat: string, k: nat)
    requires k <= |a|
    requires NoStraddle(a, b, pat)
    ensures NoStraddle(a[k..], b, pat)
  {
    var rest := a[k..];
    assert (a + b)[k..] == rest + b;
    forall i | 0 <= i < |rest| < i + |pat| ensures !OccursAt(rest + b, pat, i) {
      assert !OccursAt(a + b, pat, i + k);
      if i + |pat| <= |rest + b| {
        assert (rest + b)[i..i + |pat|] == (a + b)[i + k..i + k + |pat|];
      }
    }
  }

  /** One step of `ReplaceConcat` where the pattern matches at the front. */
  lemma {:induction false} ReplaceConcatMatch(a: string, b: string, pat: string, rep: string)
    requires pat != [] && |pat| <= |a|
    requires (a + b)[..|pat|] == pat
    requires Replace(a[|pat|..] + b, pat, rep) == Replace(a[|pat|..], pat, rep) + Replace(b, pat, rep)
    ensures Replace(a + b, pat, rep) == Replace(a, pat, rep) + Replace(b, pat, rep)
  {
    var n := |pat|;
    PrefixOfConcat(a, b, n);
    SuffixOfConcat(a, b, n);
    ReplaceMatch(a + b, pat, rep);
    ReplaceMatch(a, pat, rep);
    ConcatAssoc(rep, Replace(a[n..], pat, rep), Replace(b, pat, rep));
  }

  /** Where the pattern matches at the front, it is replaced and the scan resumes after it. */
  lemma ReplaceMatch(s: string, pat: string, rep: string)
    requires pat != [] && |pat| <= |s| && s[..|pat|] == pat
    ensures Replace(s, pat, rep) == rep + Replace(s[|pat|..], pat, rep)
  {
  }

  /** Dropping a prefix no longer than `a` from `a + b`. */
  lemma SuffixOfConcat(a: string, b: string, n: nat)
    requires n <= |a|
    ensures (a + b)[n..] == a[n..] + b
  {
  }

  /** One step of `ReplaceConcat` where the front character is copied. */
  lemma {:induction false} ReplaceConcatSkip(a: string, b: string, pat: string, rep: string)
    requires pat != [] && a != [] && |pat| <= |a + b|
    requires (a + b)[..|pat|] != pat
    requires Replace(a[1..] + b, pat, rep) == Replace(a[1..], pat, rep) + Replace(b, pat, rep)
    ensures Replace(a + b, pat, rep) == Replace(a, pat, rep) + Replace(b, pat, rep)
  {
    ConsSplit(a, b);
    if |pat| <= |a| {
      PrefixOfConcat(a, b, |pat|);
    }
    ReplaceCons(a[0], a[1..] + b, pat, rep);
    ReplaceCons(a[0], a[1..], pat, rep);
    ConcatAssoc([a[0]], Replace(a[1..], pat, rep), Replace(b, pat, rep));
  }

  /** Associativity of concatenation, as a fact apart from the `Replace` proofs that use it. */
  lemma ConcatAssoc(x: string, y: string, z: string)
    ensures x + (y + z) == (x + y) + z
  {
  }

  /** `a + b` seen as its first character followed by the rest. */
  lemma ConsSplit(a: string, b: string)
    requires a != []
    ensures a == [a[0]] + a[1..]
    ensures a + b == [a[0]] + (a[1..] + b)
  {
  }

  /** A prefix of `a + b` no longer than `a` is a prefix of `a`. */
  lemma PrefixOfConcat(a: string, b: string, n: nat)
    requires n <= |a|
    ensures (a + b)[..n] == a[..n]
  {
  }

  /**
    Where the pattern cannot match at the front (it does not, or the text is too
    short), the front character is copied.
   */
  lemma {:induction false} ReplaceCons(x: char, t: string, pat: string, rep: string)
    requires pat != []
    requires |pat| <= 1 + |t| ==> ([x] + t)[..|pat|] != pat
    ensures Replace([x] + t, pat, rep) == [x] + Replace(t, pat, rep)
  {
    assert ([x] + t)[1..] == t;
    if 1 + |t| < |pat| {
      assert Replace(t, pat, rep) == t;
    }
  }

  /** A pattern that starts with a brace never occurs in brace-free text. */
  lemma BraceFreeAbsent(s: string, pat: string)
    requires BraceFree(s)
    requires pat != [] && pat[0] == '{'
    ensures Absent(s, pat)
  {
  }

  /** Python's `sep.join(parts)`. */
  function Join(parts: seq<string>, sep: string): string {
    if parts == [] then ""
    else if |parts| == 1 then parts[0]
    else parts[0] + sep + Join(parts[1..], sep)
  }

  /** Joining brace-free parts with a brace-free separator gives brace-free text. */
  lemma {:induction false} JoinBraceFree(parts: seq<string>, sep: string)
    requires AllBraceFree(parts) && BraceFree(sep)
    ensures BraceFree(Join(parts, sep))
  {
    if |parts| > 1 {
      JoinBraceFree(parts[1..], sep);
    }
  }

  /** Python's `s.split(sep)` for a one-character separator: always at least one field. */
  function Split(s: string, sep: char): (fields: seq<string>)
    ensures |fields| >= 1
  {
    if s == [] then [""]
    else
      var rest := Split(s[1..], sep);
      if s[0] == sep then [""] + rest else [[s[0]] + rest[0]] + rest[1..]
  }

  /** Splitting a separator-free prefix followed by the separator peels off that prefix. */
  lemma {:induction false} SplitField(a: string, b: string, sep: char)
    requires sep !in a
    ensures Split(a + [sep] + b, sep) == [a] + Split(b, sep)
  {
    if a == [] {
      assert a + [sep] + b == [sep] + b;
      assert ([sep] + b)[1..] == b;
    } else {
      assert (a + [sep] + b)[1..] == a[1..] + [sep] + b;
      SplitField(a[1..], b, sep);
      assert [a[0]] + a[1..] == a;
    }
  }

  /** Splitting separator-free text gives the text itself as the only field. */
  lemma {:induction false} SplitNone(a: string, sep: char)
    requires sep !in a
    ensures Split(a, sep) == [a]
  {
    if a != [] {
      SplitNone(a[1..], sep);
      assert [a[0]] + a[1..] == a;
    }
  }

  /**
    `split` undoes `join` for a non-empty list of fields that contain no separator:
    the joined text names exactly the same fields, in the same order.
   */
  lemma {:induction false} SplitJoin(parts: seq<string>, sep: char)
    requires parts != []
    requires forall i :: 0 <= i < |parts| ==> sep !in parts[i]
    ensures Split(Join(parts, [sep]), sep) == parts
  {
    if |parts| == 1 {
      SplitNone(parts[0], sep);
    } else {
      SplitJoin(parts[1..], sep);
      SplitField(parts[0], Join(parts[1..], [sep]), sep);
      assert [parts[0]] + parts[1..] == parts;
    }
  }
}
