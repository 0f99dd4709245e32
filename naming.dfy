/**
 * The CamelCase to snake_case conversion used for field names, order-by
 * fields and default table names: two `re.sub` passes,
 *   1. `(.)([A-Z][a-z]+)` -> `\1_\2`
 *   2. `([a-z0-9])([A-Z])` -> `\1_\2`
 * followed by `.lower()`. Each pass is Python's left-to-right scan for
 * non-overlapping matches: after a match the scan resumes at its end.
 */
module Naming {
  import opened Strings

  /** Length of the run of lower-case letters at the start of `s` (the greedy `[a-z]+`). */
  function LowerRun(s: string): (n: nat)
    ensures n <= |s|
    ensures forall i :: 0 <= i < n ==> IsLower(s[i])
    ensures n < |s| ==> !IsLower(s[n])
  {
    if s != [] && IsLower(s[0]) then 1 + LowerRun(s[1..]) else 0
  }

  /** Does `(.)([A-Z][a-z]+)` match at the start of `s`? (`.` does not match a newline.) */
  predicate WordBoundaryAt(s: string) {
    |s| >= 3 && s[0] != '\n' && IsUpper(s[1]) && IsLower(s[2])
  }

  /** First pass: `re.sub('(.)([A-Z][a-z]+)', r'\1_\2', s)` */
  function SplitWords(s: string): string
    decreases |s|
  {
    if s == [] then []
    else if WordBoundaryAt(s) then
      var n := 2 + LowerRun(s[2..]);
      [s[0], '_'] + s[1..n] + SplitWords(s[n..])
    else [s[0]] + SplitWords(s[1..])
  }

  /** Does `([a-z0-9])([A-Z])` match at the start of `s`? */
  predicate LowerUpperAt(s: string) {
    |s| >= 2 && (IsLower(s[0]) || IsDigit(s[0])) && IsUpper(s[1])
  }

  /** Second pass: `re.sub('([a-z0-9])([A-Z])', r'\1_\2', s)` */
  function SplitLowerUpper(s: string): string
    decreases |s|
  {
    if s == [] then []
    else if LowerUpperAt(s) then [s[0], '_', s[1]] + SplitLowerUpper(s[2..])
    else [s[0]] + SplitLowerUpper(s[1..])
  }

  /** `_camel_to_snake` */
  function CamelToSnake(s: string): (r: string)
    ensures HasNoUpper(r)
  {
    Lower(SplitLowerUpper(SplitWords(s)))
  }

  /** `o` is `i` with zero or more `'_'` characters inserted. */
  predicate UnderscoresInserted(o: string, i: string)
    decreases |o|
  {
    if o == [] then i == []
    else
      (i != [] && o[0] == i[0] && UnderscoresInserted(o[1..], i[1..]))
      || (o[0] == '_' && UnderscoresInserted(o[1..], i))
  }

  lemma {:induction false} InsertedRefl(s: string)
    ensures UnderscoresInserted(s, s)
  {
    if s != [] { InsertedRefl(s[1..]); }
  }

  lemma {:induction false} InsertedPrefix(p: string, o: string, i: string)
    requires UnderscoresInserted(o, i)
    ensures UnderscoresInserted(p + o, p + i)
  {
    if p == [] {
      assert p + o == o && p + i == i;
    } else {
      InsertedPrefix(p[1..], o, i);
      assert (p + o)[1..] == p[1..] + o;
      assert (p + i)[1..] == p[1..] + i;
      assert (p + o)[0] == p[0] == (p + i)[0];
    }
  }

  lemma {:induction false} InsertedTrans(a: string, b: string, c: string)
    requires UnderscoresInserted(a, b) && UnderscoresInserted(b, c)
    ensures UnderscoresInserted(a, c)
    decreases |a|
  {
    if a != [] {
      if b != [] && a[0] == b[0] && UnderscoresInserted(a[1..], b[1..]) {
        if c != [] && b[0] == c[0] && UnderscoresInserted(b[1..], c[1..]) {
          InsertedTrans(a[1..], b[1..], c[1..]);
        } else {
          InsertedTrans(a[1..], b[1..], c);
        }
      } else {
        InsertedTrans(a[1..], b, c);
      }
    }
  }

  lemma {:induction false} InsertedLower(o: string, i: string)
    requires UnderscoresInserted(o, i)
    ensures UnderscoresInserted(Lower(o), Lower(i))
    decreases |o|
  {
    if o != [] {
      assert Lower(o)[1..] == Lower(o[1..]);
      if i != [] && o[0] == i[0] && UnderscoresInserted(o[1..], i[1..]) {
        InsertedLower(o[1..], i[1..]);
        assert Lower(i)[1..] == Lower(i[1..]);
      } else {
        InsertedLower(o[1..], i);
      }
    }
  }

  /** One `'_'` inserted after the first character, on top of insertions further on. */
  lemma InsertedAfterFirst(c: char, mid: string, o: string, i: string)
    requires UnderscoresInserted(o, i)
    ensures UnderscoresInserted([c, '_'] + mid + o, [c] + mid + i)
  {
    InsertedPrefix(mid, o, i);
    var t := mid + o;
    assert (['_'] + t)[1..] == t;
    InsertedPrefix([c], ['_'] + t, mid + i);
    assert [c, '_'] + mid + o == [c] + (['_'] + t);
    assert [c] + mid + i == [c] + (mid + i);
  }

  lemma {:induction false} SplitWordsInserts(s: string)
    ensures UnderscoresInserted(SplitWords(s), s)
    decreases |s|
  {
    if s == [] {
    } else if WordBoundaryAt(s) {
      var n := 2 + LowerRun(s[2..]);
      SplitWordsInserts(s[n..]);
      InsertedAfterFirst(s[0], s[1..n], SplitWords(s[n..]), s[n..]);
      assert [s[0]] + s[1..n] + s[n..] == s;
    } else {
      SplitWordsInserts(s[1..]);
      InsertedPrefix([s[0]], SplitWords(s[1..]), s[1..]);
      assert [s[0]] + s[1..] == s;
    }
  }

  lemma {:induction false} SplitLowerUpperInserts(s: string)
    ensures UnderscoresInserted(SplitLowerUpper(s), s)
    decreases |s|
  {
    if s == [] {
    } else if LowerUpperAt(s) {
      SplitLowerUpperInserts(s[2..]);
      InsertedAfterFirst(s[0], [s[1]], SplitLowerUpper(s[2..]), s[2..]);
      assert [s[0], '_', s[1]] == [s[0], '_'] + [s[1]];
      assert [s[0]] + [s[1]] + s[2..] == s;
    } else {
      SplitLowerUpperInserts(s[1..]);
      InsertedPrefix([s[0]], SplitLowerUpper(s[1..]), s[1..]);
      assert [s[0]] + s[1..] == s;
    }
  }

  /** The result is the lower-cased input with only `'_'` characters inserted. */
  lemma CamelToSnakeInsertsUnderscores(s: string)
    ensures UnderscoresInserted(CamelToSnake(s), Lower(s))
  {
    SplitWordsInserts(s);
    SplitLowerUpperInserts(SplitWords(s));
    InsertedTrans(SplitLowerUpper(SplitWords(s)), SplitWords(s), s);
    InsertedLower(SplitLowerUpper(SplitWords(s)), s);
  }

  lemma {:induction false} SplitWordsNoUpper(s: string)
    requires HasNoUpper(s)
    ensures SplitWords(s) == s
    decreases |s|
  {
    if s != [] {
      assert HasNoUpper(s[1..]) by {
        forall i | 0 <= i < |s[1..]| ensures !IsUpper(s[1..][i]) { assert s[1..][i] == s[i + 1]; }
      }
      SplitWordsNoUpper(s[1..]);
    }
  }

  lemma {:induction false} SplitLowerUpperNoUpper(s: string)
    requires HasNoUpper(s)
    ensures SplitLowerUpper(s) == s
    decreases |s|
  {
    if s != [] {
      assert HasNoUpper(s[1..]) by {
        forall i | 0 <= i < |s[1..]| ensures !IsUpper(s[1..][i]) { assert s[1..][i] == s[i + 1]; }
      }
      SplitLowerUpperNoUpper(s[1..]);
    }
  }

  lemma LowerNoUpper(s: string)
    requires HasNoUpper(s)
    ensures Lower(s) == s
  {
  }

  /** A name without upper-case letters comes back unchanged. */
  lemma CamelToSnakeNoUpper(s: string)
    requires HasNoUpper(s)
    ensures CamelToSnake(s) == s
  {
    SplitWordsNoUpper(s);
    SplitLowerUpperNoUpper(s);
    LowerNoUpper(s);
  }

  /** Converting twice is converting once. */
  lemma CamelToSnakeIdempotent(s: string)
    ensures CamelToSnake(CamelToSnake(s)) == CamelToSnake(s)
  {
    CamelToSnakeNoUpper(CamelToSnake(s));
  }
}
