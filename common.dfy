/**
 * Small value helpers shared by every part of the model: the optional value,
 * the outcome of a remote call, and the handful of JavaScript string and
 * array operations the balance pipeline relies on (prefix tests, substring
 * search, `split`, `join`, `trim`, ASCII case mapping, the insertion order of
 * a `Set`, and `filter`).
 */
module Common {

  datatype Option<T> = None | Some(value: T)

  /** What one call of a remote operation gives: a value, or a thrown error with its message. */
  datatype Outcome<T> = Succeeded(value: T) | Threw(message: string)

  // ---------------------------------------------------------------------------
  // Prefixes and substrings
  // ---------------------------------------------------------------------------

  /** `s.startsWith(p)` */
  predicate StartsWith(s: string, p: string) {
    |p| <= |s| && s[..|p|] == p
  }

  /** `s.includes(sub)`: `sub` occurs at some position of `s`. */
  predicate Contains(s: string, sub: string)
    decreases |s|
  {
    StartsWith(s, sub) || (|s| > 0 && Contains(s[1..], sub))
  }

  lemma {:induction false} ContainsAt(s: string, sub: string, i: nat)
    requires i + |sub| <= |s| && s[i..i + |sub|] == sub
    ensures Contains(s, sub)
    decreases i
  {
    if i > 0 {
      assert s[1..][i - 1..i - 1 + |sub|] == s[i..i + |sub|];
      ContainsAt(s[1..], sub, i - 1);
    }
  }

  lemma {:induction false} ContainsWitness(s: string, sub: string) returns (i: nat)
    requires Contains(s, sub)
    ensures i + |sub| <= |s| && s[i..i + |sub|] == sub
    decreases |s|
  {
    if StartsWith(s, sub) {
      i := 0;
    } else {
      var j := ContainsWitness(s[1..], sub);
      assert s[1..][j..j + |sub|] == s[j + 1..j + 1 + |sub|];
      i := j + 1;
    }
  }

  // ---------------------------------------------------------------------------
  // split and join on a single separator character
  // ---------------------------------------------------------------------------

  /** `s.split(sep)` for a one-character separator: every occurrence cuts, empty pieces stay. */
  function Split(s: string, sep: char): (parts: seq<string>)
    ensures |parts| >= 1
    ensures forall i :: 0 <= i < |parts| ==> sep !in parts[i]
    decreases |s|
  {
    if |s| == 0 then [""]
    else if s[0] == sep then [""] + Split(s[1..], sep)
    else
      var rest := Split(s[1..], sep);
      [[s[0]] + rest[0]] + rest[1..]
  }

  /** `parts.join(sep)`; an empty array joins to the empty string. */
  function Join(parts: seq<string>, sep: char): string
    decreases |parts|
  {
    if |parts| == 0 then ""
    else if |parts| == 1 then parts[0]
    else parts[0] + [sep] + Join(parts[1..], sep)
  }

  /** Joining the pieces of a split gives the original text back. */
  lemma {:induction false} JoinSplit(s: string, sep: char)
    ensures Join(Split(s, sep), sep) == s
    decreases |s|
  {
    if |s| == 0 {
    } else if s[0] == sep {
      JoinSplit(s[1..], sep);
      var rest := Split(s[1..], sep);
      assert Split(s, sep) == [""] + rest;
      assert s == [sep] + s[1..];
    } else {
      JoinSplit(s[1..], sep);
      var rest := Split(s[1..], sep);
      if |rest| == 1 {
        assert Join(rest, sep) == rest[0];
      } else {
        assert Join(rest, sep) == rest[0] + [sep] + Join(rest[1..], sep);
      }
      assert s == [s[0]] + s[1..];
    }
  }

  /** Splitting a join of separator-free pieces gives the pieces back. */
  lemma {:induction false} SplitJoin(parts: seq<string>, sep: char)
    requires |parts| >= 1
    requires forall i :: 0 <= i < |parts| ==> sep !in parts[i]
    ensures Split(Join(parts, sep), sep) == parts
    decreases |parts|, |parts[0]|
  {
    var p := parts[0];
    if |parts| == 1 {
      SplitNoSep(p, sep);
    } else if |p| == 0 {
      SplitJoin(parts[1..], sep);
      assert Join(parts, sep) == [sep] + Join(parts[1..], sep);
      assert Join(parts, sep)[1..] == Join(parts[1..], sep);
      assert parts == [""] + parts[1..];
    } else {
      var shorter := [p[1..]] + parts[1..];
      assert forall i :: 0 <= i < |shorter| ==> sep !in shorter[i] by {
        forall i | 0 <= i < |shorter| ensures sep !in shorter[i] {
          if i == 0 {
            assert forall c :: c in p[1..] ==> c in p;
          } else {
            assert shorter[i] == parts[i];
          }
        }
      }
      SplitJoin(shorter, sep);
      assert Join(shorter, sep) == p[1..] + [sep] + Join(parts[1..], sep);
      var j := Join(parts, sep);
      assert j == p + [sep] + Join(parts[1..], sep);
      assert j[0] == p[0] && j[0] != sep;
      assert j[1..] == Join(shorter, sep);
      assert [p[0]] + p[1..] == p;
      assert parts == [p] + parts[1..];
    }
  }

  lemma {:induction false} SplitNoSep(s: string, sep: char)
    requires sep !in s
    ensures Split(s, sep) == [s]
    decreases |s|
  {
    if |s| > 0 {
      assert forall c :: c in s[1..] ==> c in s;
      SplitNoSep(s[1..], sep);
      assert [s[0]] + s[1..] == s;
    }
  }

  // ---------------------------------------------------------------------------
  // trim
  // ---------------------------------------------------------------------------

  /** The characters `String.prototype.trim` removes: ECMAScript WhiteSpace and LineTerminator. */
  predicate IsWhitespace(c: char) {
    c in {'\t', '\n', '\U{000B}', '\U{000C}', '\r', ' ', '\U{00A0}', '\U{1680}',
          '\U{2028}', '\U{2029}', '\U{202F}', '\U{205F}', '\U{3000}', '\U{FEFF}'}
    || ('\U{2000}' <= c <= '\U{200A}')
  }

  /** `r` is `s` with its `k` leading characters and some trailing characters removed, all of them whitespace. */
  predicate IsTrimOf(s: string, k: nat, r: string) {
    && k + |r| <= |s| && r == s[k..k + |r|]
    && (forall i :: 0 <= i < k ==> IsWhitespace(s[i]))
    && (forall i :: k + |r| <= i < |s| ==> IsWhitespace(s[i]))
  }

  /** `s.trim()`: the longest infix of `s` that starts and ends with a non-whitespace character. */
  function Trim(s: string): (r: string)
    ensures IsTrimOf(s, |s| - |TrimStart(s)|, r)
    ensures r != [] ==> !IsWhitespace(r[0]) && !IsWhitespace(r[|r| - 1])
  {
    var a := TrimStart(s);
    var b := TrimEnd(a);
    TrimFacts(s, a, b);
    b
  }

  /** Composes the postconditions of `TrimStart` and `TrimEnd` into those of `Trim`. */
  lemma TrimFacts(s: string, a: string, b: string)
    requires |a| <= |s| && a == s[|s| - |a|..]
    requires forall i :: 0 <= i < |s| - |a| ==> IsWhitespace(s[i])
    requires a != [] ==> !IsWhitespace(a[0])
    requires |b| <= |a| && b == a[..|b|]
    requires forall i :: |b| <= i < |a| ==> IsWhitespace(a[i])
    requires b != [] ==> !IsWhitespace(b[|b| - 1])
    ensures IsTrimOf(s, |s| - |a|, b)
    ensures b != [] ==> !IsWhitespace(b[0]) && !IsWhitespace(b[|b| - 1])
  {
    var k := |s| - |a|;
    forall i | k + |b| <= i < |s| ensures IsWhitespace(s[i]) {
      assert s[i] == a[i - k];
    }
    if b != [] {
      assert b[0] == a[0];
    }
  }

  function TrimStart(s: string): (r: string)
    ensures |r| <= |s| && r == s[|s| - |r|..]
    ensures forall i :: 0 <= i < |s| - |r| ==> IsWhitespace(s[i])
    ensures r != [] ==> !IsWhitespace(r[0])
    decreases |s|
  {
    if |s| > 0 && IsWhitespace(s[0]) then TrimStart(s[1..]) else s
  }

  function TrimEnd(s: string): (r: string)
    ensures |r| <= |s| && r == s[..|r|]
    ensures forall i :: |r| <= i < |s| ==> IsWhitespace(s[i])
    ensures r != [] ==> !IsWhitespace(r[|r| - 1])
    decreases |s|
  {
    if |s| > 0 && IsWhitespace(s[|s| - 1]) then TrimEnd(s[..|s| - 1]) else s
  }

  // ---------------------------------------------------------------------------
  // ASCII case mapping
  // ---------------------------------------------------------------------------

  function LowerChar(c: char): char {
    if 'A' <= c <= 'Z' then (c as int + 32) as char else c
  }

  function UpperChar(c: char): char {
    if 'a' <= c <= 'z' then (c as int - 32) as char else c
  }

  /** `s.toLowerCase()` restricted to ASCII letters. */
  function ToLower(s: string): (r: string)
    ensures |r| == |s| && forall i :: 0 <= i < |s| ==> r[i] == LowerChar(s[i])
  {
    seq(|s|, i requires 0 <= i < |s| => LowerChar(s[i]))
  }

  /** `s.toUpperCase()` restricted to ASCII letters. */
  function ToUpper(s: string): (r: string)
    ensures |r| == |s| && forall i :: 0 <= i < |s| ==> r[i] == UpperChar(s[i])
  {
    seq(|s|, i requires 0 <= i < |s| => UpperChar(s[i]))
  }

  // ---------------------------------------------------------------------------
  // Numbers
  // ---------------------------------------------------------------------------

  function Pow10(n: nat): (p: nat)
    ensures p >= 1
  {
    if n == 0 then 1 else 10 * Pow10(n - 1)
  }

  // ---------------------------------------------------------------------------
  // Sequences
  // ---------------------------------------------------------------------------

  predicate NoDuplicates<T(==)>(s: seq<T>) {
    forall i, j :: 0 <= i < j < |s| ==> s[i] != s[j]
  }

  /**
   * The iteration order of `new Set(s)`: each element once, at the place of its
   * first occurrence in `s`.
   */
  function Distinct<T(==)>(s: seq<T>): (r: seq<T>)
    ensures forall i :: 0 <= i < |r| ==> r[i] in s
    ensures forall i :: 0 <= i < |s| ==> s[i] in r
    ensures NoDuplicates(r)
    ensures |r| <= |s|
  {
    if s == [] then []
    else
      var d := Distinct(s[..|s| - 1]);
      if s[|s| - 1] in d then d else d + [s[|s| - 1]]
  }

  /** `Distinct` is idempotent. */
  lemma {:induction false} DistinctOfDistinct<T>(s: seq<T>)
    ensures Distinct(Distinct(s)) == Distinct(s)
  {
    DistinctIdentity(Distinct(s));
  }

  /** A list without repeats is its own `Distinct`. */
  lemma {:induction false} DistinctIdentity<T>(s: seq<T>)
    requires NoDuplicates(s)
    ensures Distinct(s) == s
  {
    if s != [] {
      var init := s[..|s| - 1];
      DistinctIdentity(init);
      DistinctMembership(init, s[|s| - 1]);
      assert s == init + [s[|s| - 1]];
    }
  }

  /** An element found at two indices is counted at least twice. */
  lemma MultisetTwice<T>(s: seq<T>, i: nat, j: nat)
    requires i < j < |s| && s[i] == s[j]
    ensures multiset(s)[s[i]] >= 2
  {
    assert s == s[..j] + s[j..];
    assert s[i] in s[..j];
    assert s[j] in s[j..];
  }

  /** In a list without repeats every element is counted at most once. */
  lemma {:induction false} MultisetOnce<T>(s: seq<T>, x: T)
    requires NoDuplicates(s)
    ensures multiset(s)[x] <= 1
  {
    if s != [] {
      var init := s[..|s| - 1];
      MultisetOnce(init, x);
      assert s == init + [s[|s| - 1]];
      if x == s[|s| - 1] {
        assert x !in init;
      }
    }
  }

  /** Reordering a list without repeats cannot create one. */
  lemma PermutationNoDuplicates<T>(r: seq<T>, s: seq<T>)
    requires multiset(r) == multiset(s) && NoDuplicates(s)
    ensures NoDuplicates(r)
  {
    forall i, j | 0 <= i < j < |r| ensures r[i] != r[j] {
      if r[i] == r[j] {
        MultisetTwice(r, i, j);
        MultisetOnce(s, r[i]);
      }
    }
  }

  function NotIn<T(==)>(a: seq<T>): T -> bool {
    x => x !in a
  }

  /**
   * `new Set([...a, ...b])` lists the elements of `a` first, in the order
   * `Distinct(a)` gives them, then the elements of `b` not in `a`, in the
   * order of their first occurrence in `b`.
   */
  lemma {:induction false} DistinctConcat<T>(a: seq<T>, b: seq<T>)
    ensures Distinct(a + b) == Distinct(a) + Filter(Distinct(b), NotIn(a))
    decreases |b|
  {
    if b == [] {
      assert a + b == a;
    } else {
      var b' := b[..|b| - 1];
      var y := b[|b| - 1];
      DistinctConcat(a, b');
      DistinctLast(a, b);
      assert Distinct(b) == if y in Distinct(b') then Distinct(b') else Distinct(b') + [y];
      DistinctMembership(a + b', y);
      DistinctMembership(b', y);
      if y in a + b' {
        DistinctConcatKept(a, Distinct(a), Distinct(b'), Distinct(a + b), Distinct(b), y);
      } else {
        DistinctConcatNew(a, Distinct(a), Distinct(b'), Distinct(a + b), Distinct(b), y);
      }
    }
  }

  /** The step of `DistinctConcat` for an element already seen. */
  lemma DistinctConcatKept<T>(a: seq<T>, da: seq<T>, mine: seq<T>, dab: seq<T>, db: seq<T>, y: T)
    requires dab == da + Filter(mine, NotIn(a))
    requires db == if y in mine then mine else mine + [y]
    requires y in a || y in mine
    ensures dab == da + Filter(db, NotIn(a))
  {
    if y !in mine {
      FilterSnoc(mine, y, NotIn(a));
    }
  }

  /** The step of `DistinctConcat` for a new element. */
  lemma DistinctConcatNew<T>(a: seq<T>, da: seq<T>, mine: seq<T>, dab: seq<T>, db: seq<T>, y: T)
    requires dab == da + Filter(mine, NotIn(a)) + [y]
    requires db == mine + [y]
    requires y !in a
    ensures dab == da + Filter(db, NotIn(a))
  {
    FilterSnoc(mine, y, NotIn(a));
    assert da + Filter(mine, NotIn(a)) + [y] == da + (Filter(mine, NotIn(a)) + [y]);
  }

  /** `Distinct(a + b)` unfolded at the last element of a non-empty `b`. */
  lemma DistinctLast<T>(a: seq<T>, b: seq<T>)
    requires b != []
    ensures var b' := b[..|b| - 1];
      Distinct(a + b) == if b[|b| - 1] in Distinct(a + b') then Distinct(a + b') else Distinct(a + b') + [b[|b| - 1]]
  {
    assert (a + b)[..|a + b| - 1] == a + b[..|b| - 1];
  }

  lemma FilterSnoc<T>(s: seq<T>, y: T, p: T -> bool)
    ensures Filter(s + [y], p) == Filter(s, p) + (if p(y) then [y] else [])
  {
    assert (s + [y])[..|s|] == s;
  }

  lemma FilterStep<T>(s: seq<T>, i: nat, p: T -> bool)
    requires i < |s|
    ensures Filter(s[..i + 1], p) == Filter(s[..i], p) + (if p(s[i]) then [s[i]] else [])
  {
    assert s[..i + 1] == s[..i] + [s[i]];
    FilterSnoc(s[..i], s[i], p);
  }

  lemma DistinctMembership<T>(s: seq<T>, x: T)
    ensures x in Distinct(s) <==> x in s
  {
    if x in s {
      var i :| 0 <= i < |s| && s[i] == x;
    }
    if x in Distinct(s) {
      var i :| 0 <= i < |Distinct(s)| && Distinct(s)[i] == x;
    }
  }

  /** `s.filter(p)` */
  function Filter<T>(s: seq<T>, p: T -> bool): (r: seq<T>)
    ensures |r| <= |s|
    ensures forall i :: 0 <= i < |r| ==> r[i] in s && p(r[i])
  {
    if s == [] then []
    else Filter(s[..|s| - 1], p) + (if p(s[|s| - 1]) then [s[|s| - 1]] else [])
  }

  lemma {:induction false} FilterMembership<T>(s: seq<T>, p: T -> bool, x: T)
    ensures x in Filter(s, p) <==> x in s && p(x)
  {
    if s != [] {
      FilterMembership(s[..|s| - 1], p, x);
      assert s == s[..|s| - 1] + [s[|s| - 1]];
    }
  }

  lemma {:induction false} FilterAppend<T>(a: seq<T>, b: seq<T>, p: T -> bool)
    ensures Filter(a + b, p) == Filter(a, p) + Filter(b, p)
    decreases |b|
  {
    if b == [] {
      assert a + b == a;
    } else {
      FilterAppend(a, b[..|b| - 1], p);
      assert (a + b)[..|a + b| - 1] == a + b[..|b| - 1];
    }
  }

  lemma FilterNoDuplicates<T>(s: seq<T>, p: T -> bool)
    requires NoDuplicates(s)
    ensures NoDuplicates(Filter(s, p))
  {
    if s != [] {
      var init := s[..|s| - 1];
      FilterNoDuplicates(init, p);
      FilterMembership(init, p, s[|s| - 1]);
    }
  }

  /** `s.flatMap(f)`: the images of the elements, concatenated in order. */
  function FlatMap<A, B>(s: seq<A>, f: A -> seq<B>): seq<B> {
    if s == [] then [] else FlatMap(s[..|s| - 1], f) + f(s[|s| - 1])
  }

  /** Each element contributes on its own: the images of a concatenation are concatenated. */
  lemma {:induction false} FlatMapAppend<A, B>(a: seq<A>, b: seq<A>, f: A -> seq<B>)
    ensures FlatMap(a + b, f) == FlatMap(a, f) + FlatMap(b, f)
    decreases |b|
  {
    if b == [] {
      assert a + b == a;
    } else {
      FlatMapAppend(a, b[..|b| - 1], f);
      assert (a + b)[..|a + b| - 1] == a + b[..|b| - 1];
    }
  }

  /** Every element of the result comes from the image of some element. */
  lemma {:induction false} FlatMapMembership<A, B>(s: seq<A>, f: A -> seq<B>, y: B)
    requires y in FlatMap(s, f)
    ensures exists i :: 0 <= i < |s| && y in f(s[i])
  {
    if y !in f(s[|s| - 1]) {
      FlatMapMembership(s[..|s| - 1], f, y);
      var i :| 0 <= i < |s| - 1 && y in f(s[..|s| - 1][i]);
      assert s[..|s| - 1][i] == s[i];
    }
  }

  /** Every element of the image of an element is in the result. */
  lemma {:induction false} FlatMapContains<A, B>(s: seq<A>, f: A -> seq<B>, i: nat, y: B)
    requires i < |s| && y in f(s[i])
    ensures y in FlatMap(s, f)
  {
    if i < |s| - 1 {
      FlatMapContains(s[..|s| - 1], f, i, y);
    }
  }

  /** An element whose image is empty leaves the rest untouched. */
  lemma FlatMapSkip<A, B>(a: seq<A>, x: A, b: seq<A>, f: A -> seq<B>)
    requires f(x) == []
    ensures FlatMap(a + [x] + b, f) == FlatMap(a, f) + FlatMap(b, f)
  {
    FlatMapAppend(a + [x], b, f);
    FlatMapAppend(a, [x], f);
    assert [x][..0] == [];
    assert FlatMap([x], f) == FlatMap([], f) + f(x);
  }

  /** Filtering before mapping: an element whose image is empty leaves the rest untouched. */
  lemma FilterFlatMapSkip<A, B>(a: seq<A>, x: A, b: seq<A>, p: A -> bool, f: A -> seq<B>)
    requires f(x) == []
    ensures FlatMap(Filter(a + [x] + b, p), f) == FlatMap(Filter(a, p), f) + FlatMap(Filter(b, p), f)
  {
    FilterAppend(a + [x], b, p);
    FilterAppend(a, [x], p);
    assert [x][..0] == [];
    assert Filter([x], p) == Filter([], p) + (if p(x) then [x] else []);
    if p(x) {
      assert Filter(a + [x] + b, p) == Filter(a, p) + [x] + Filter(b, p);
      FlatMapSkip(Filter(a, p), x, Filter(b, p), f);
    } else {
      assert Filter(a + [x] + b, p) == Filter(a, p) + Filter(b, p);
      FlatMapAppend(Filter(a, p), Filter(b, p), f);
    }
  }
}
