// Shared building blocks: failure-carrying wrappers, the Python string
// operations the framework relies on, insertion-ordered dictionaries and the
// dynamically typed values that flow through dictionaries and entities.

module Wrappers {

  datatype Option<+T> = None | Some(value: T) {
    function GetOr(default: T): T {
      match this
      case Some(v) => v
      case None => default
    }
  }

  datatype Result<+T, +E> = Ok(value: T) | Err(error: E)
}

/** Generic facts about sequences, stated once so that proofs over large element types stay small. */
module Sequences {

  lemma InitLast<T>(s: seq<T>)
    requires s != []
    ensures s == s[..|s| - 1] + [s[|s| - 1]]
  {
  }

  lemma TakeSnoc<T>(s: seq<T>, i: nat)
    requires i < |s|
    ensures s[..i + 1] == s[..i] + [s[i]]
  {
  }

  lemma AppendAssoc<T>(a: seq<T>, b: seq<T>, c: seq<T>)
    ensures (a + b) + c == a + (b + c)
  {
  }

  lemma Regroup<T>(a: seq<T>, b: seq<T>, c: seq<T>, d: seq<T>)
    ensures a + ((b + c) + d) == (a + b) + (c + d)
  {
  }

  lemma TakeConcat<T>(a: seq<T>, b: seq<T>)
    ensures (a + b)[..|a|] == a
  {
  }
}

/** Python's `str` operations, over ASCII letters for the case-sensitive ones. */
module Strings {
  import opened Wrappers

  predicate IsUpper(c: char) { 'A' <= c <= 'Z' }
  predicate IsLower(c: char) { 'a' <= c <= 'z' }
  predicate IsDigit(c: char) { '0' <= c <= '9' }

  /** The characters `str.isspace` accepts (and so `str.strip` removes). */
  predicate IsSpace(c: char) {
    || c == ' ' || '\t' <= c <= '\r' || '\U{1c}' <= c <= '\U{1f}' || c == '\U{85}' || c == '\U{a0}'
    || c == '\U{1680}' || '\U{2000}' <= c <= '\U{200a}' || c == '\U{2028}' || c == '\U{2029}'
    || c == '\U{202f}' || c == '\U{205f}' || c == '\U{3000}'
  }

  function LowerChar(c: char): (r: char)
    ensures !IsUpper(r)
    ensures IsUpper(c) ==> IsLower(r)
    ensures !IsUpper(c) ==> r == c
  {
    if IsUpper(c) then (c as int + 32) as char else c
  }

  function UpperChar(c: char): (r: char)
    ensures !IsLower(r)
    ensures IsLower(c) ==> IsUpper(r)
    ensures !IsLower(c) ==> r == c
  {
    if IsLower(c) then (c as int - 32) as char else c
  }

  /** `s.lower()` */
  function Lower(s: string): (r: string)
    ensures |r| == |s|
    ensures forall i :: 0 <= i < |s| ==> r[i] == LowerChar(s[i])
  {
    seq(|s|, i requires 0 <= i < |s| => LowerChar(s[i]))
  }

  /** `s.upper()` */
  function Upper(s: string): (r: string)
    ensures |r| == |s|
    ensures forall i :: 0 <= i < |s| ==> r[i] == UpperChar(s[i])
  {
    seq(|s|, i requires 0 <= i < |s| => UpperChar(s[i]))
  }

  predicate HasNoUpper(s: string) {
    forall i :: 0 <= i < |s| ==> !IsUpper(s[i])
  }

  predicate StartsWith(s: string, p: string) {
    |p| <= |s| && s[..|p|] == p
  }

  /** Two strings that differ at a position inside `p` do not share the prefix `p`. */
  lemma DiffersAt(s: string, p: string, i: nat)
    requires i < |p| && i < |s| && s[i] != p[i]
    ensures !StartsWith(s, p)
  {
    if |p| <= |s| {
      assert s[..|p|][i] == s[i];
    }
  }

  /** A common prefix can be cancelled. */
  lemma StartsWithCancel(p: string, r: string, q: string)
    ensures StartsWith(p + r, p + q) <==> StartsWith(r, q)
  {
    if |q| <= |r| {
      assert (p + r)[..|p + q|] == p + r[..|q|];
      if (p + r)[..|p + q|] == p + q {
        assert r[..|q|] == (p + q)[|p|..];
      }
    }
  }

  predicate EndsWith(s: string, p: string) {
    |p| <= |s| && s[|s| - |p|..] == p
  }

  /** Index of the first occurrence of `p` in `s` (`str.find`), if any. */
  function IndexOf(s: string, p: string): (r: Option<nat>)
    ensures r.Some? ==> r.value + |p| <= |s| && s[r.value..r.value + |p|] == p && StartsWith(s[r.value..], p)
    ensures r.Some? ==> forall j :: 0 <= j < r.value ==> !StartsWith(s[j..], p)
    ensures r.None? ==> forall j :: 0 <= j <= |s| ==> !StartsWith(s[j..], p)
  {
    if StartsWith(s, p) then Some(0)
    else if s == [] then None
    else match IndexOf(s[1..], p)
      case Some(i) =>
        NoMatchShift(s, p, i);
        assert s[i + 1..] == s[1..][i..];
        Some(i + 1)
      case None =>
        NoMatchShift(s, p, |s|);
        None
  }

  /** No match in the first `n` positions of `s[1..]` is no match at positions 1 to `n` of `s`. */
  lemma NoMatchShift(s: string, p: string, n: nat)
    requires s != [] && n <= |s|
    requires forall j :: 0 <= j < n ==> !StartsWith(s[1..][j..], p)
    ensures forall j :: 1 <= j < n + 1 ==> !StartsWith(s[j..], p)
  {
    forall j | 1 <= j < n + 1 ensures !StartsWith(s[j..], p) {
      assert s[j..] == s[1..][j - 1..];
    }
  }

  /** `p in s` for strings. */
  predicate Contains(s: string, p: string) {
    IndexOf(s, p).Some?
  }

  predicate ContainsChar(s: string, c: char) {
    exists i :: 0 <= i < |s| && s[i] == c
  }

  /** A match of `p` at position `i` makes `p in s` true. */
  lemma ContainsAt(s: string, p: string, i: nat)
    requires i <= |s| && StartsWith(s[i..], p)
    ensures Contains(s, p)
  {
  }

  /** For a one-character `p`, `p in s` is membership of that character. */
  lemma ContainsSingle(s: string, c: char)
    ensures Contains(s, [c]) <==> ContainsChar(s, c)
  {
    if ContainsChar(s, c) {
      var i :| 0 <= i < |s| && s[i] == c;
      assert s[i..][..1] == [c];
      ContainsAt(s, [c], i);
    }
    if Contains(s, [c]) {
      var i := IndexOf(s, [c]).value;
      assert s[i] == s[i..i + 1][0];
    }
  }

  /** No proper prefix of `sep` is also a suffix of it, so two of its occurrences never overlap. */
  predicate BorderFree(sep: string) {
    forall k :: 0 < k < |sep| ==> sep[..k] != sep[|sep| - k..]
  }

  /** With no occurrence inside `a`, the first `sep` of `a + sep + b` is the one after `a`. */
  lemma IndexOfConcat(a: string, sep: string, b: string)
    requires BorderFree(sep) && !Contains(a, sep)
    ensures IndexOf(a + sep + b, sep) == Some(|a|)
  {
    var s := a + sep + b;
    assert s[|a|..][..|sep|] == sep;
    forall j | 0 <= j < |a| ensures !StartsWith(s[j..], sep) {
      if j + |sep| <= |a| {
        assert s[j..][..|sep|] == a[j..][..|sep|];
      } else {
        var k := j + |sep| - |a|;
        var w := s[j..][..|sep|];
        assert w[|sep| - k..] == sep[..k];
        assert sep[..k] != sep[|sep| - k..];
      }
    }
    ContainsAt(s, sep, |a|);
  }

  /** `s.split(sep, 1)` when `sep in s`: the text before and after the first `sep`. */
  function SplitOnce(s: string, sep: string): (r: Option<(string, string)>)
    ensures r.Some? <==> Contains(s, sep)
    ensures r.Some? ==> s == r.value.0 + sep + r.value.1
  {
    match IndexOf(s, sep)
    case None => None
    case Some(i) =>
      assert s == s[..i] + s[i..i + |sep|] + s[i + |sep|..];
      Some((s[..i], s[i + |sep|..]))
  }

  /** With no occurrence inside `a`, `a + sep + b` splits once into `a` and `b`. */
  lemma SplitOnceConcat(a: string, sep: string, b: string)
    requires BorderFree(sep) && !Contains(a, sep)
    ensures Contains(a + sep + b, sep) && SplitOnce(a + sep + b, sep) == Some((a, b))
  {
    var s := a + sep + b;
    IndexOfConcat(a, sep, b);
    assert s[..|a|] == a && s[|a| + |sep|..] == b;
  }

  /** The text before the split point holds no `sep`: the split is at the first occurrence. */
  lemma SplitOnceFirst(s: string, sep: string)
    requires |sep| > 0 && SplitOnce(s, sep).Some?
    ensures !Contains(SplitOnce(s, sep).value.0, sep)
  {
    var i := IndexOf(s, sep).value;
    var a := s[..i];
    forall j | 0 <= j < |a| ensures !StartsWith(a[j..], sep) {
      if j + |sep| <= |a| {
        assert a[j..][..|sep|] == s[j..][..|sep|];
      }
    }
  }

  /** `s.split(c)` for a one-character separator: never empty, no piece holds `c`. */
  function Split(s: string, c: char): (r: seq<string>)
    ensures |r| >= 1
    ensures forall k :: 0 <= k < |r| ==> !ContainsChar(r[k], c)
  {
    if s == [] then [""]
    else
      var rest := Split(s[1..], c);
      if s[0] == c then [""] + rest
      else
        assert !ContainsChar([s[0]] + rest[0], c) by {
          forall i | 0 <= i < |[s[0]] + rest[0]| ensures ([s[0]] + rest[0])[i] != c {
            if i > 0 { assert ([s[0]] + rest[0])[i] == rest[0][i - 1]; }
          }
        }
        [[s[0]] + rest[0]] + rest[1..]
  }

  /** `sep.join(parts)` */
  function Join(parts: seq<string>, sep: string): string {
    if parts == [] then ""
    else if |parts| == 1 then parts[0]
    else parts[0] + sep + Join(parts[1..], sep)
  }

  /** `''.join(parts)` */
  function Concat(parts: seq<string>): string {
    if parts == [] then "" else parts[0] + Concat(parts[1..])
  }

  lemma ContainsCharAppend(a: string, b: string, c: char)
    ensures ContainsChar(a + b, c) <==> ContainsChar(a, c) || ContainsChar(b, c)
  {
    if ContainsChar(a + b, c) {
      var i :| 0 <= i < |a + b| && (a + b)[i] == c;
      if i >= |a| { assert b[i - |a|] == c; }
    }
    if ContainsChar(a, c) {
      var i :| 0 <= i < |a| && a[i] == c;
      assert (a + b)[i] == c;
    }
    if ContainsChar(b, c) {
      var i :| 0 <= i < |b| && b[i] == c;
      assert (a + b)[|a| + i] == c;
    }
  }

  /** `s` with every `c` removed. */
  function RemoveChar(s: string, c: char): string {
    if s == [] then "" else (if s[0] == c then "" else [s[0]]) + RemoveChar(s[1..], c)
  }

  /** Splitting on `c` and joining the pieces back without a separator removes every `c`. */
  lemma {:induction false} ConcatSplit(s: string, c: char)
    ensures Concat(Split(s, c)) == RemoveChar(s, c)
  {
    if s != [] {
      ConcatSplit(s[1..], c);
      var rest := Split(s[1..], c);
      if s[0] != c {
        assert Concat(rest) == rest[0] + Concat(rest[1..]);
      }
    }
  }

  /** `s.split(c)` has one piece more than `s` has separators. */
  lemma {:induction false} SplitCount(s: string, c: char)
    ensures |Split(s, c)| == CountChar(s, c) + 1
  {
    if s != [] { SplitCount(s[1..], c); }
  }

  /** A first piece without the separator comes off whole. */
  lemma {:induction false} SplitPrefix(p: string, q: string, c: char)
    requires !ContainsChar(p, c)
    ensures Split(p + [c] + q, c) == [p] + Split(q, c)
  {
    if p == [] {
      assert p + [c] + q == [c] + q;
      assert ([c] + q)[1..] == q;
    } else {
      assert !ContainsChar(p[1..], c) by {
        forall i | 0 <= i < |p[1..]| ensures p[1..][i] != c { assert p[1..][i] == p[i + 1]; }
      }
      SplitPrefix(p[1..], q, c);
      assert (p + [c] + q)[1..] == p[1..] + [c] + q;
      assert (p + [c] + q)[0] == p[0];
      assert [p[0]] + p[1..] == p;
    }
  }

  /** A string without the separator splits into itself alone. */
  lemma {:induction false} SplitNoSeparator(s: string, c: char)
    requires !ContainsChar(s, c)
    ensures Split(s, c) == [s]
  {
    if s != [] {
      assert !ContainsChar(s[1..], c) by {
        forall i | 0 <= i < |s[1..]| ensures s[1..][i] != c { assert s[1..][i] == s[i + 1]; }
      }
      SplitNoSeparator(s[1..], c);
      assert [s[0]] + s[1..] == s;
    }
  }

  /** Text without the separator in front of `s` joins the first piece. */
  lemma {:induction false} SplitPrepend(p: string, s: string, c: char)
    requires !ContainsChar(p, c)
    ensures Split(p + s, c) == [p + Split(s, c)[0]] + Split(s, c)[1..]
  {
    var q := Split(s, c);
    if p == [] {
      assert p + s == s;
      assert p + q[0] == q[0];
      assert [q[0]] + q[1..] == q;
    } else {
      assert !ContainsChar(p[1..], c) by {
        forall i | 0 <= i < |p[1..]| ensures p[1..][i] != c { assert p[1..][i] == p[i + 1]; }
      }
      SplitPrepend(p[1..], s, c);
      var t := p + s;
      assert t[1..] == p[1..] + s;
      assert t[0] == p[0] && t[0] != c;
      var rest := Split(t[1..], c);
      assert rest == [p[1..] + q[0]] + q[1..];
      assert Split(t, c) == [[t[0]] + rest[0]] + rest[1..];
      assert [p[0]] + (p[1..] + q[0]) == p + q[0];
    }
  }

  /**
   * Joining pieces with a separator that starts with `c` and splitting the
   * result on `c` gives the pieces back, each after the first carrying the
   * rest of the separator in front, provided no piece holds `c`.
   */
  lemma {:induction false} SplitJoin(parts: seq<string>, c: char, pad: string)
    requires parts != [] && !ContainsChar(pad, c)
    requires forall i :: 0 <= i < |parts| ==> !ContainsChar(parts[i], c)
    ensures Split(Join(parts, [c] + pad), c) == [parts[0]] + PadEach(pad, parts[1..])
    decreases |parts|
  {
    if |parts| == 1 {
      SplitNoSeparator(parts[0], c);
    } else {
      var rest := parts[1..];
      var j := Join(rest, [c] + pad);
      SplitJoin(rest, c, pad);
      JoinStep(parts, c, pad);
      SplitPrefix(parts[0], pad + j, c);
      SplitPrepend(pad, j, c);
      PadEachStep(pad, rest, Split(j, c));
    }
  }

  /** `pad` put in front of every piece. */
  function PadEach(pad: string, parts: seq<string>): (r: seq<string>)
    ensures |r| == |parts|
    ensures forall i :: 0 <= i < |parts| ==> r[i] == pad + parts[i]
  {
    if parts == [] then [] else [pad + parts[0]] + PadEach(pad, parts[1..])
  }

  lemma PadEachEmpty(parts: seq<string>)
    ensures PadEach("", parts) == parts
  {
    var r := PadEach("", parts);
    forall i | 0 <= i < |parts| ensures r[i] == parts[i] {
      assert "" + parts[i] == parts[i];
    }
  }

  lemma JoinStep(parts: seq<string>, c: char, pad: string)
    requires |parts| >= 2
    ensures Join(parts, [c] + pad) == parts[0] + [c] + (pad + Join(parts[1..], [c] + pad))
  {
  }

  lemma PadEachStep(pad: string, rest: seq<string>, q: seq<string>)
    requires rest != [] && q == [rest[0]] + PadEach(pad, rest[1..])
    ensures [pad + q[0]] + q[1..] == PadEach(pad, rest)
  {
    assert q[1..] == PadEach(pad, rest[1..]);
  }

  lemma LowerAppend(a: string, b: string)
    ensures Lower(a + b) == Lower(a) + Lower(b)
  {
  }

  lemma LowerOfUpper(c: char)
    ensures LowerChar(UpperChar(c)) == LowerChar(c)
  {
  }

  /** How many times the character `c` occurs in `s`. */
  function CountChar(s: string, c: char): nat {
    if s == [] then 0 else (if s[0] == c then 1 else 0) + CountChar(s[1..], c)
  }

  lemma {:induction false} CountCharAppend(a: string, b: string, c: char)
    ensures CountChar(a + b, c) == CountChar(a, c) + CountChar(b, c)
  {
    if a == [] {
      assert a + b == b;
    } else {
      assert (a + b)[1..] == a[1..] + b;
      CountCharAppend(a[1..], b, c);
    }
  }

  lemma CountCharAppend4(a: string, b: string, d: string, e: string, c: char)
    ensures CountChar(a + b + d + e, c) == CountChar(a, c) + CountChar(b, c) + CountChar(d, c) + CountChar(e, c)
  {
    CountCharAppend(a, b, c);
    CountCharAppend(a + b, d, c);
    CountCharAppend(a + b + d, e, c);
  }

  /** Joining pieces that do not hold `c` with a separator that does not hold it gives no `c`. */
  lemma {:induction false} JoinCountAbsent(parts: seq<string>, sep: string, c: char)
    requires forall k :: 0 <= k < |parts| ==> CountChar(parts[k], c) == 0
    requires c !in sep
    ensures CountChar(Join(parts, sep), c) == 0
    decreases |parts|
  {
    CountCharAbsent(sep, c);
    if |parts| > 1 {
      JoinCountAbsent(parts[1..], sep, c);
      CountCharAppend(parts[0] + sep, Join(parts[1..], sep), c);
      CountCharAppend(parts[0], sep, c);
    }
  }

  lemma CountCharAbsent(s: string, c: char)
    requires !ContainsChar(s, c)
    ensures CountChar(s, c) == 0
  {
    if s != [] {
      assert !ContainsChar(s[1..], c) by {
        forall i | 0 <= i < |s[1..]| ensures s[1..][i] != c {
          assert s[1..][i] == s[i + 1];
        }
      }
      CountCharAbsent(s[1..], c);
    }
  }

  /** Text without `c` on either side of `s` adds no `c` to it. */
  lemma CountCharAround(p: string, s: string, q: string, c: char)
    requires c !in p && c !in q
    ensures CountChar(p + s + q, c) == CountChar(s, c)
  {
    CountCharAbsent(p, c);
    CountCharAbsent(q, c);
    CountCharAppend(p, s, c);
    CountCharAppend(p + s, q, c);
  }

  /** Index of the first `c` in `s`, if any. */
  function FirstIndexOf(s: string, c: char): (r: Option<nat>)
    ensures r.Some? ==> r.value < |s| && s[r.value] == c && !ContainsChar(s[..r.value], c)
    ensures r.None? ==> !ContainsChar(s, c)
  {
    if s == [] then None
    else if s[0] == c then Some(0)
    else match FirstIndexOf(s[1..], c)
      case None =>
        assert !ContainsChar(s, c) by {
          forall i | 0 <= i < |s| ensures s[i] != c {
            if i > 0 { assert s[i] == s[1..][i - 1]; }
          }
        }
        None
      case Some(i) =>
        assert !ContainsChar(s[..i + 1], c) by {
          forall j | 0 <= j < i + 1 ensures s[j] != c {
            if j > 0 { assert s[j] == s[1..][..i][j - 1]; }
          }
        }
        Some(i + 1)
  }

  /** `s.replace(c, rep, 1)` for a one-character pattern. */
  function ReplaceFirstChar(s: string, c: char, rep: string): (r: string)
    ensures !ContainsChar(s, c) ==> r == s
    ensures ContainsChar(s, c) ==> exists i :: 0 <= i < |s| && s[i] == c && !ContainsChar(s[..i], c)
                                             && r == s[..i] + rep + s[i + 1..]
  {
    match FirstIndexOf(s, c)
    case None => s
    case Some(i) => s[..i] + rep + s[i + 1..]
  }

  lemma CountCharPositive(s: string, c: char)
    ensures ContainsChar(s, c) <==> CountChar(s, c) > 0
  {
    if ContainsChar(s, c) {
      var i :| 0 <= i < |s| && s[i] == c;
      assert s == s[..i] + [c] + s[i + 1..];
      CountCharAppend(s[..i] + [c], s[i + 1..], c);
      CountCharAppend(s[..i], [c], c);
    } else {
      CountCharAbsent(s, c);
    }
  }

  /** Replacing the first `c` by text without `c` removes exactly one occurrence, if there is one. */
  lemma ReplaceFirstCharCount(s: string, c: char, rep: string)
    requires !ContainsChar(rep, c)
    ensures CountChar(ReplaceFirstChar(s, c, rep), c) == if ContainsChar(s, c) then CountChar(s, c) - 1 else CountChar(s, c)
  {
    match FirstIndexOf(s, c)
    case None =>
    case Some(i) =>
      assert s == s[..i] + [c] + s[i + 1..];
      CountCharAbsent(s[..i], c);
      CountCharAbsent(rep, c);
      CountCharAppend(s[..i] + [c], s[i + 1..], c);
      CountCharAppend(s[..i], [c], c);
      CountCharAppend(s[..i] + rep, s[i + 1..], c);
      CountCharAppend(s[..i], rep, c);
  }

  /** `pat` occurs in `s` at position `i`, compared from its `k`-th character on. */
  predicate MatchesAt(s: string, i: nat, pat: string, k: nat)
    requires i + |pat| <= |s| && k <= |pat|
    decreases |pat| - k
  {
    k == |pat| || (s[i + k] == pat[k] && MatchesAt(s, i, pat, k + 1))
  }

  lemma {:induction false} MatchesAtMeans(s: string, i: nat, pat: string, k: nat)
    requires i + |pat| <= |s| && k <= |pat|
    ensures MatchesAt(s, i, pat, k) <==> s[i + k..i + |pat|] == pat[k..]
    decreases |pat| - k
  {
    if k < |pat| {
      MatchesAtMeans(s, i, pat, k + 1);
      assert s[i + k..i + |pat|] == [s[i + k]] + s[i + k + 1..i + |pat|];
      assert pat[k..] == [pat[k]] + pat[k + 1..];
    }
  }

  /** `s.replace(old, new)` for a non-empty pattern: every non-overlapping occurrence, left to right. */
  function ReplaceAll(s: string, pat: string, rep: string): string
    requires |pat| > 0
  {
    ReplaceFrom(s, pat, rep, 0)
  }

  /** The replacement applied to `s[i..]`. */
  function ReplaceFrom(s: string, pat: string, rep: string, i: nat): string
    requires |pat| > 0 && i <= |s|
    decreases |s| - i
  {
    if |s| - i < |pat| then s[i..]
    else if MatchesAt(s, i, pat, 0) then rep + ReplaceFrom(s, pat, rep, i + |pat|)
    else [s[i]] + ReplaceFrom(s, pat, rep, i + 1)
  }

  /** No occurrence of `pat` starts at a position in `[i, j)`. */
  predicate NoMatchBetween(s: string, pat: string, i: nat, j: nat)
    requires i <= j <= |s|
    decreases j - i
  {
    i == j || ((|s| - i < |pat| || !MatchesAt(s, i, pat, 0)) && NoMatchBetween(s, pat, i + 1, j))
  }

  /** Positions where `pat` does not start are copied unchanged. */
  lemma {:induction false} ReplaceFromSkip(s: string, pat: string, rep: string, i: nat, j: nat)
    requires |pat| > 0 && i <= j <= |s|
    requires NoMatchBetween(s, pat, i, j)
    ensures ReplaceFrom(s, pat, rep, i) == s[i..j] + ReplaceFrom(s, pat, rep, j)
    decreases j - i
  {
    if i < j {
      if |s| - i < |pat| {
        assert s[i..] == s[i..j] + s[j..];
      } else {
        ReplaceFromSkip(s, pat, rep, i + 1, j);
        assert s[i..j] == [s[i]] + s[i + 1..j];
      }
    }
  }

  /** At a position where `pat` starts, it is replaced. */
  lemma ReplaceFromHit(s: string, pat: string, rep: string, i: nat)
    requires |pat| > 0 && i + |pat| <= |s|
    requires MatchesAt(s, i, pat, 0)
    ensures ReplaceFrom(s, pat, rep, i) == rep + ReplaceFrom(s, pat, rep, i + |pat|)
  {
  }

  function StripLeft(s: string): (r: string)
    ensures r == [] || !IsSpace(r[0])
    ensures EndsWith(s, r)
  {
    if s != [] && IsSpace(s[0]) then
      var r := StripLeft(s[1..]);
      assert s[|s| - |r|..] == s[1..][|s[1..]| - |r|..];
      r
    else s
  }

  function StripRight(s: string): (r: string)
    ensures r == [] || !IsSpace(r[|r| - 1])
    ensures StartsWith(s, r)
  {
    if s != [] && IsSpace(s[|s| - 1]) then
      var r := StripRight(s[..|s| - 1]);
      assert s[..|s| - 1][..|r|] == s[..|r|];
      r
    else s
  }

  /** `s.strip()` */
  function Strip(s: string): (r: string)
    ensures r == [] || (!IsSpace(r[0]) && !IsSpace(r[|r| - 1]))
  {
    var l := StripLeft(s);
    var r := StripRight(l);
    assert r != [] ==> r[0] == l[0];
    r
  }

  /** A string without surrounding white space is its own `strip()`. */
  lemma StripUnchanged(s: string)
    requires s == [] || (!IsSpace(s[0]) && !IsSpace(s[|s| - 1]))
    ensures Strip(s) == s
  {
  }

  function DigitChar(d: nat): (c: char)
    requires d < 10
    ensures IsDigit(c)
  {
    ('0' as int + d) as char
  }

  predicate AllDigits(s: string) {
    forall i :: 0 <= i < |s| ==> IsDigit(s[i])
  }

  /** `str(n)` for a natural number: its decimal digits, most significant first. */
  function NatToString(n: nat): (r: string)
    ensures r != [] && AllDigits(r)
    decreases n
  {
    if n < 10 then [DigitChar(n)] else NatToString(n / 10) + [DigitChar(n % 10)]
  }

  /** `str(i)` for an integer. */
  function IntToString(i: int): string {
    if i < 0 then "-" + NatToString(-i) else NatToString(i)
  }

  /** The number a string of decimal digits denotes. */
  function DigitsValue(s: string): nat
    requires AllDigits(s)
    decreases |s|
  {
    if s == [] then 0 else DigitsValue(s[..|s| - 1]) * 10 + (s[|s| - 1] as int - '0' as int)
  }

  /** `int(s)` on text: surrounding white space, an optional sign, then one or more decimal digits. */
  function ParseInt(s: string): Option<int> {
    SignedValue(Strip(s))
  }

  /** An optional sign, then one or more decimal digits, with nothing around them. */
  function SignedValue(t: string): Option<int> {
    var negative := t != [] && t[0] == '-';
    var digits := if t != [] && (t[0] == '-' || t[0] == '+') then t[1..] else t;
    if digits != [] && AllDigits(digits) then
      var n: int := DigitsValue(digits);
      Some(if negative then -n else n)
    else None
  }

  lemma {:induction false} DigitsOfNat(n: nat)
    ensures DigitsValue(NatToString(n)) == n
    decreases n
  {
    if n >= 10 {
      DigitsOfNat(n / 10);
      var r := NatToString(n);
      assert r[..|r| - 1] == NatToString(n / 10);
    }
  }

  /** Reading back the text of an integer gives the integer. */
  lemma ParseIntToString(i: int)
    ensures ParseInt(IntToString(i)) == Some(i)
  {
    if i < 0 {
      ParseIntNegative(i);
    } else {
      ParseIntNat(i);
    }
  }

  lemma ParseIntNat(n: nat)
    ensures ParseInt(IntToString(n)) == Some(n)
  {
    DigitsOfNat(n);
    ParseIntDigits(NatToString(n), n);
  }

  /** Decimal digits alone read as their number. */
  lemma ParseIntDigits(d: string, n: int)
    requires d != [] && AllDigits(d) && DigitsValue(d) == n
    ensures ParseInt(d) == Some(n)
  {
    assert IsDigit(d[0]) && IsDigit(d[|d| - 1]);
    StripUnchanged(d);
    assert SignedValue(d) == Some(n);
  }

  lemma ParseIntNegative(i: int)
    requires i < 0
    ensures ParseInt(IntToString(i)) == Some(i)
  {
    DigitsOfNat(-i);
    ParseIntMinus(NatToString(-i), -i);
  }

  /** A minus sign followed by decimal digits reads as the negated number. */
  lemma ParseIntMinus(d: string, n: int)
    requires d != [] && AllDigits(d) && DigitsValue(d) == n
    ensures ParseInt("-" + d) == Some(-n)
  {
    var t := "-" + d;
    MinusText(d);
    StripUnchanged(t);
    assert SignedValue(t) == Some(-n);
  }

  lemma MinusText(d: string)
    requires d != [] && AllDigits(d)
    ensures var t := "-" + d; t[0] == '-' && t[1..] == d && !IsSpace(t[0]) && !IsSpace(t[|t| - 1])
  {
    var t := "-" + d;
    assert t[|t| - 1] == d[|d| - 1];
  }

  /** `s.rstrip(c)` */
  function RStripChar(s: string, c: char): (r: string)
    ensures r == [] || r[|r| - 1] != c
    ensures StartsWith(s, r)
    ensures forall i :: |r| <= i < |s| ==> s[i] == c
  {
    if s != [] && s[|s| - 1] == c then
      var r := RStripChar(s[..|s| - 1], c);
      assert s[..|s| - 1][..|r|] == s[..|r|];
      r
    else s
  }
}

/**
 * Python `dict`: insertion-ordered, one entry per key. Assigning to an
 * existing key keeps its position and replaces its value.
 */
module Dicts {
  import opened Wrappers

  type Dict<K, V> = seq<(K, V)>

  function Keys<K, V>(d: Dict<K, V>): (r: seq<K>)
    ensures |r| == |d|
    ensures forall i :: 0 <= i < |d| ==> r[i] == d[i].0
  {
    if d == [] then [] else [d[0].0] + Keys(d[1..])
  }

  /** Position of the first occurrence of `x` in `s`. */
  function FirstIndex<K(==)>(s: seq<K>, x: K): (r: Option<nat>)
    ensures r.Some? ==> r.value < |s| && s[r.value] == x && x !in s[..r.value]
    ensures r.None? ==> x !in s
  {
    if s == [] then None
    else if s[0] == x then Some(0)
    else match FirstIndex(s[1..], x)
      case None => None
      case Some(i) =>
        assert s[..i + 1] == [s[0]] + s[1..][..i];
        Some(i + 1)
  }

  lemma FirstIndexAppend<K>(s: seq<K>, x: K, y: K)
    ensures FirstIndex(s + [x], y) == if y in s then FirstIndex(s, y) else if y == x then Some(|s|) else None
  {
    if s != [] {
      assert (s + [x])[1..] == s[1..] + [x];
      FirstIndexAppend(s[1..], x, y);
    }
  }

  predicate HasKey<K(==), V>(d: Dict<K, V>, k: K) {
    k in Keys(d)
  }

  /** No key occurs twice: every dictionary built with Set satisfies this. */
  predicate Valid<K(==), V>(d: Dict<K, V>) {
    forall i, j :: 0 <= i < j < |d| ==> d[i].0 != d[j].0
  }

  /** `d.get(k)` */
  function Get<K(==), V>(d: Dict<K, V>, k: K): (r: Option<V>)
    ensures r.Some? <==> HasKey(d, k)
    ensures r.Some? ==> exists i :: 0 <= i < |d| && d[i] == (k, r.value)
  {
    match FirstIndex(Keys(d), k)
    case None => None
    case Some(i) => Some(d[i].1)
  }

  /** `d[k] = v` */
  function Set<K(==), V>(d: Dict<K, V>, k: K, v: V): (r: Dict<K, V>)
    ensures HasKey(d, k) ==> Keys(r) == Keys(d)
    ensures !HasKey(d, k) ==> Keys(r) == Keys(d) + [k]
  {
    match FirstIndex(Keys(d), k)
    case Some(i) => d[i := (k, v)]
    case None => d + [(k, v)]
  }

  lemma GetSet<K, V>(d: Dict<K, V>, k: K, v: V, k': K)
    ensures Get(Set(d, k, v), k') == if k' == k then Some(v) else Get(d, k')
  {
    var r := Set(d, k, v);
    if !HasKey(d, k) {
      FirstIndexAppend(Keys(d), k, k');
    }
  }

  lemma SetValid<K, V>(d: Dict<K, V>, k: K, v: V)
    requires Valid(d)
    ensures Valid(Set(d, k, v))
  {
    var r := Set(d, k, v);
    forall i, j | 0 <= i < j < |r| ensures r[i].0 != r[j].0 {
      assert Keys(r)[i] == r[i].0 && Keys(r)[j] == r[j].0;
      if j == |d| {
        assert Keys(d)[i] == d[i].0;
      } else {
        assert Keys(d)[i] == d[i].0 && Keys(d)[j] == d[j].0;
      }
    }
  }

  /** `d.update(e)`: the entries of `e`, in order, assigned into `d`. */
  function Update<K(==), V>(d: Dict<K, V>, e: Dict<K, V>): Dict<K, V>
    decreases |e|
  {
    if e == [] then d else Update(Set(d, e[0].0, e[0].1), e[1..])
  }

  /** `d.update(e[i..])` assigns `e[i]` first, then the rest. */
  lemma UpdateStep<K, V>(d: Dict<K, V>, e: Dict<K, V>, i: nat)
    requires i < |e|
    ensures Update(d, e[i..]) == Update(Set(d, e[i].0, e[i].1), e[i + 1..])
  {
    assert e[i..][1..] == e[i + 1..];
  }

  /** The keys after `d.update(e)` are those of `d` and of `e`. */
  lemma {:induction false} UpdateHasKey<K, V>(d: Dict<K, V>, e: Dict<K, V>, q: K)
    ensures HasKey(Update(d, e), q) <==> HasKey(d, q) || HasKey(e, q)
    decreases |e|
  {
    if e != [] {
      UpdateHasKey(Set(d, e[0].0, e[0].1), e[1..], q);
      assert Keys(e) == [e[0].0] + Keys(e[1..]);
    }
  }

  lemma {:induction false} UpdateValid<K, V>(d: Dict<K, V>, e: Dict<K, V>)
    requires Valid(d)
    ensures Valid(Update(d, e))
    decreases |e|
  {
    if e != [] {
      SetValid(d, e[0].0, e[0].1);
      UpdateValid(Set(d, e[0].0, e[0].1), e[1..]);
    }
  }

  /** After `d.update(e)` a key of `e` has its value from `e`; every other key keeps its value. */
  lemma {:induction false} GetUpdate<K, V>(d: Dict<K, V>, e: Dict<K, V>, k: K)
    requires Valid(e)
    ensures Get(Update(d, e), k) == if HasKey(e, k) then Get(e, k) else Get(d, k)
    decreases |e|
  {
    if e != [] {
      var d' := Set(d, e[0].0, e[0].1);
      ValidTail(e);
      GetUpdate(d', e[1..], k);
      GetSet(d, e[0].0, e[0].1, k);
      GetCons(e, k);
    }
  }

  /** The value of the last pair with key `k` in a list of pairs, which may repeat keys. */
  function LastValue<K(==), V>(e: seq<(K, V)>, k: K): Option<V>
    decreases |e|
  {
    if e == [] then None
    else match LastValue(e[1..], k)
      case Some(v) => Some(v)
      case None => if e[0].0 == k then Some(e[0].1) else None
  }

  /** `d.update(pairs)` assigns the pairs in order, so the last pair with a key decides its value. */
  lemma {:induction false} GetUpdateLast<K, V>(d: Dict<K, V>, e: seq<(K, V)>, k: K)
    ensures Get(Update(d, e), k) == if LastValue(e, k).Some? then LastValue(e, k) else Get(d, k)
    decreases |e|
  {
    if e != [] {
      GetUpdateLast(Set(d, e[0].0, e[0].1), e[1..], k);
      GetSet(d, e[0].0, e[0].1, k);
    }
  }

  /** In `a + b` a pair of `b` comes after every pair of `a`. */
  lemma {:induction false} LastValueAppend<K, V>(a: seq<(K, V)>, b: seq<(K, V)>, k: K)
    ensures LastValue(a + b, k) == if LastValue(b, k).Some? then LastValue(b, k) else LastValue(a, k)
    decreases |a|
  {
    if a != [] {
      assert (a + b)[1..] == a[1..] + b;
      LastValueAppend(a[1..], b, k);
    } else {
      assert a + b == b;
    }
  }

  /** `Get` on a non-empty dictionary: its first entry, or a lookup in the rest. */
  lemma GetCons<K, V>(e: Dict<K, V>, k: K)
    requires e != []
    ensures HasKey(e, k) <==> k == e[0].0 || HasKey(e[1..], k)
    ensures Get(e, k) == if k == e[0].0 then Some(e[0].1) else Get(e[1..], k)
  {
    assert Keys(e) == [e[0].0] + Keys(e[1..]);
    assert Keys(e)[1..] == Keys(e[1..]);
  }

  /** A valid dictionary without its first entry is valid and no longer holds that key. */
  lemma ValidTail<K, V>(e: Dict<K, V>)
    requires Valid(e) && e != []
    ensures Valid(e[1..]) && !HasKey(e[1..], e[0].0)
  {
    forall i, j | 0 <= i < j < |e[1..]| ensures e[1..][i].0 != e[1..][j].0 {
      assert e[1..][i] == e[i + 1] && e[1..][j] == e[j + 1];
    }
    forall i | 0 <= i < |e[1..]| ensures Keys(e[1..])[i] != e[0].0 {
      assert e[1..][i] == e[i + 1];
    }
  }

  /** `Get` on a valid non-empty dictionary: its last entry, or a lookup in the entries before it. */
  lemma GetSnoc<K, V>(d: Dict<K, V>, k: K)
    requires Valid(d) && d != []
    ensures var pre := d[..|d| - 1];
      Valid(pre) && !HasKey(pre, d[|d| - 1].0)
      && (HasKey(d, k) <==> HasKey(pre, k) || k == d[|d| - 1].0)
      && Get(d, k) == if k == d[|d| - 1].0 then Some(d[|d| - 1].1) else Get(pre, k)
  {
    var m := |d| - 1;
    ValidInit(d);
    if k == d[m].0 {
      assert Keys(d)[m] == k;
      GetIndex(d, m);
    } else if HasKey(d[..m], k) {
      GetSnocBefore(d, k);
    } else {
      GetSnocAbsent(d, k);
    }
  }

  lemma GetSnocBefore<K, V>(d: Dict<K, V>, k: K)
    requires Valid(d) && d != [] && HasKey(d[..|d| - 1], k)
    ensures HasKey(d, k) && Get(d, k) == Get(d[..|d| - 1], k)
  {
    var pre := d[..|d| - 1];
    var i :| 0 <= i < |pre| && Keys(pre)[i] == k;
    assert pre[i] == d[i] && Keys(d)[i] == k;
    GetIndex(pre, i);
    GetIndex(d, i);
  }

  lemma GetSnocAbsent<K, V>(d: Dict<K, V>, k: K)
    requires d != [] && !HasKey(d[..|d| - 1], k) && k != d[|d| - 1].0
    ensures !HasKey(d, k)
  {
    var pre := d[..|d| - 1];
    forall i | 0 <= i < |d| ensures Keys(d)[i] != k {
      if i < |pre| {
        assert pre[i] == d[i] && Keys(pre)[i] == pre[i].0;
      }
    }
  }

  lemma ValidInit<K, V>(d: Dict<K, V>)
    requires Valid(d) && d != []
    ensures Valid(d[..|d| - 1]) && !HasKey(d[..|d| - 1], d[|d| - 1].0)
  {
    var pre := d[..|d| - 1];
    forall i, j | 0 <= i < j < |pre| ensures pre[i].0 != pre[j].0 {
      assert pre[i] == d[i] && pre[j] == d[j];
    }
    forall i | 0 <= i < |pre| ensures Keys(pre)[i] != d[|d| - 1].0 {
      assert pre[i] == d[i];
    }
  }

  /** Copying a valid dictionary entry by entry: each entry's key is new, so it is appended. */
  lemma SetPrefix<K, V>(d: Dict<K, V>, i: nat)
    requires Valid(d) && i < |d|
    ensures Set(d[..i], d[i].0, d[i].1) == d[..i + 1]
  {
    assert !HasKey(d[..i], d[i].0) by {
      forall j | 0 <= j < i ensures Keys(d[..i])[j] != d[i].0 {
        assert Keys(d[..i])[j] == d[j].0;
      }
    }
    assert d[..i + 1] == d[..i] + [d[i]];
  }

  lemma GetIndex<K, V>(d: Dict<K, V>, i: nat)
    requires Valid(d) && i < |d|
    ensures Get(d, d[i].0) == Some(d[i].1)
  {
    var ks := Keys(d);
    assert ks[i] == d[i].0;
  }

  /** An entry whose key does not occur before it is the one `Get` finds. */
  lemma GetFirst<K, V>(d: Dict<K, V>, i: nat)
    requires i < |d| && d[i].0 !in Keys(d)[..i]
    ensures Get(d, d[i].0) == Some(d[i].1)
  {
    var ks := Keys(d);
    assert ks[i] == d[i].0;
    FirstIndexAt(ks, i);
  }

  /** The first occurrence is at `i` exactly when `s[i]` does not occur before `i`. */
  lemma {:induction false} FirstIndexAt<K>(s: seq<K>, i: nat)
    requires i < |s| && s[i] !in s[..i]
    ensures FirstIndex(s, s[i]) == Some(i)
  {
    if i > 0 {
      assert s[0] == s[..i][0];
      assert s[1..][i - 1] == s[i];
      assert s[1..][..i - 1] == s[1..i];
      assert s[1..i] == s[..i][1..];
      FirstIndexAt(s[1..], i - 1);
    }
  }
}

/** Python objects as seen by dictionaries, entities and configuration files. */
module Values {

  datatype Value =
    | NoneV
    | BoolV(b: bool)
    | IntV(i: int)
    | StrV(s: string)
    | DateTimeV(iso: string)        // a `datetime`, represented by its ISO-8601 text
    | ListV(items: seq<Value>)
    | DictV(entries: seq<(string, Value)>)
    | ObjectV(tag: string)          // any other object, identified by a tag

  /** Python truthiness (`bool(v)`); ordinary objects are truthy. */
  predicate Truthy(v: Value) {
    match v
    case NoneV => false
    case BoolV(b) => b
    case IntV(i) => i != 0
    case StrV(s) => s != ""
    case DateTimeV(_) => true
    case ListV(items) => items != []
    case DictV(entries) => entries != []
    case ObjectV(_) => true
  }
}
