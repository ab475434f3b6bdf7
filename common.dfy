/** Shared vocabulary: optional values, the JavaScript string operations the
    application relies on (trim, slice, includes, startsWith, number
    rendering), and the counting and sorting helpers its queries repeat. */
module Common {

  /** A nullable or missing value (`T | null`, `T | undefined`). */
  datatype Option<+T> = None | Some(value: T) {
    /** `x ?? d` */
    function GetOr(d: T): T {
      if Some? then value else d
    }
  }

  // ---------------------------------------------------------------------
  // Strings
  // ---------------------------------------------------------------------

  /** The characters `String.prototype.trim` strips: the ECMAScript
      WhiteSpace and LineTerminator code points. */
  predicate IsSpace(c: char) {
    c in SpaceChars || '\U{2000}' <= c <= '\U{200A}'
  }

  /** The white space outside the range U+2000..U+200A. */
  const SpaceChars: set<char> := {
    ' ', '\t', '\n', '\r', '\U{B}', '\U{C}', '\U{A0}', '\U{FEFF}',
    '\U{1680}', '\U{2028}', '\U{2029}', '\U{202F}', '\U{205F}', '\U{3000}'
  }

  /** Every character of `s` is white space (so `s.trim()` is ""). */
  predicate AllSpace(s: string) {
    forall k :: 0 <= k < |s| ==> IsSpace(s[k])
  }

  function TrimStart(s: string): (r: string)
    ensures |r| <= |s| && r == s[|s| - |r|..]
    ensures AllSpace(s[..|s| - |r|])
    ensures r == [] || !IsSpace(r[0])
  {
    if |s| > 0 && IsSpace(s[0]) then TrimStart(s[1..]) else s
  }

  function TrimEnd(s: string): (r: string)
    ensures |r| <= |s| && r == s[..|r|]
    ensures AllSpace(s[|r|..])
    ensures r == [] || !IsSpace(r[|r| - 1])
  {
    if |s| > 0 && IsSpace(s[|s| - 1]) then
      var t := s[..|s| - 1];
      var r := TrimEnd(t);
      assert s[|r|..] == t[|r|..] + [s[|s| - 1]];
      assert r == s[..|r|];
      r
    else s
  }

  /** `s.trim()` */
  function Trim(s: string): string {
    TrimEnd(TrimStart(s))
  }

  /** The trimmed string is `s` with a blank prefix and a blank suffix
      removed, and it neither starts nor ends with white space. */
  lemma {:induction false} TrimShape(s: string)
    ensures var r, i := Trim(s), |s| - |TrimStart(s)|;
      && i + |r| <= |s|
      && s[i..i + |r|] == r
      && AllSpace(s[..i]) && AllSpace(s[i + |r|..])
      && (r == [] || (!IsSpace(r[0]) && !IsSpace(r[|r| - 1])))
  {
    var t := TrimStart(s);
    var r := TrimEnd(t);
    assert r == Trim(s);
    BlankAround(s, t, r);
    TrimEndsNotSpace(s);
  }

  /** A suffix `t` of `s` after a blank prefix, and a prefix `r` of `t`
      before a blank suffix: `r` sits in `s` between two blank pieces. */
  lemma {:induction false} BlankAround(s: string, t: string, r: string)
    requires |t| <= |s| && t == s[|s| - |t|..] && AllSpace(s[..|s| - |t|])
    requires |r| <= |t| && r == t[..|r|] && AllSpace(t[|r|..])
    ensures var i := |s| - |t|;
      && i + |r| <= |s| && s[i..i + |r|] == r
      && AllSpace(s[..i]) && AllSpace(s[i + |r|..])
  {
    var i := |s| - |t|;
    assert s[i + |r|..] == t[|r|..];
  }

  lemma {:induction false} TrimEndsNotSpace(s: string)
    ensures var r := Trim(s); r == [] || (!IsSpace(r[0]) && !IsSpace(r[|r| - 1]))
  {
    var t := TrimStart(s);
    var r := TrimEnd(t);
    if r != [] {
      assert r[0] == t[0];
    }
  }

  /** `!s.trim()`: trimming leaves nothing exactly when `s` is blank. */
  lemma {:induction false} TrimEmptyIffBlank(s: string)
    ensures Trim(s) == [] <==> AllSpace(s)
  {
    var t := TrimStart(s);
    if t == [] {
      assert s[..|s|] == s;
    } else {
      var i := |s| - |t|;
      assert t[0] == s[i];
      assert TrimEnd(t) != [] by {
        var r := TrimEnd(t);
        assert t[|r|..] == t || r != [];
      }
    }
  }

  /** Trimming twice is trimming once. */
  lemma {:induction false} TrimIdempotent(s: string)
    ensures Trim(Trim(s)) == Trim(s)
  {
    var r := Trim(s);
    assert TrimStart(r) == r;
    assert TrimEnd(r) == r;
  }

  /** `s.slice(0, n)` for a non-negative `n`. */
  function Take(s: string, n: nat): (r: string)
    ensures |r| <= n && |r| <= |s|
    ensures |s| <= n ==> r == s
    ensures n <= |s| ==> |r| == n
    ensures r == s[..|r|]
  {
    if |s| <= n then s else s[..n]
  }

  /** `s.startsWith(p)` */
  predicate StartsWith(s: string, p: string) {
    |p| <= |s| && s[..|p|] == p
  }

  /** `sub` occurs in `s` starting at position `i`. */
  predicate OccursAt(s: string, sub: string, i: int) {
    0 <= i <= |s| - |sub| && s[i..i + |sub|] == sub
  }

  /** Where the second and fourth of five concatenated parts sit. */
  lemma OccursInFive(a: string, b: string, c: string, d: string, e: string)
    ensures OccursAt(a + b + c + d + e, b, |a|)
    ensures OccursAt(a + b + c + d + e, d, |a| + |b| + |c|)
    ensures (a + b + c + d + e)[|a| + |b| + |c| + |d|..] == e
  {
  }

  /** `s.includes(sub)`, by scanning from the left. */
  predicate Includes(s: string, sub: string)
    decreases |s|
  {
    StartsWith(s, sub) || (|s| > 0 && Includes(s[1..], sub))
  }

  /** `includes` agrees with the positional definition of a substring. */
  lemma {:induction false} IncludesIffOccurs(s: string, sub: string)
    ensures Includes(s, sub) <==> exists i :: OccursAt(s, sub, i)
    decreases |s|
  {
    if StartsWith(s, sub) {
      assert OccursAt(s, sub, 0);
    } else if |s| > 0 {
      IncludesIffOccurs(s[1..], sub);
      if Includes(s[1..], sub) {
        var i :| OccursAt(s[1..], sub, i);
        OccursShift(s, sub, i + 1);
      } else {
        forall i ensures !OccursAt(s, sub, i) {
          if i >= 1 {
            OccursShift(s, sub, i);
          }
        }
      }
    }
  }

  /** An occurrence past the first character is one in the tail. */
  lemma {:induction false} OccursShift(s: string, sub: string, i: int)
    requires |s| > 0 && i >= 1
    ensures OccursAt(s, sub, i) <==> OccursAt(s[1..], sub, i - 1)
  {
    if 0 <= i - 1 <= |s[1..]| - |sub| {
      assert s[1..][i - 1..i - 1 + |sub|] == s[i..i + |sub|];
    }
  }

  /** ASCII lower-casing, as `toLowerCase` does on the Latin letters. */
  function LowerChar(c: char): char {
    if 'A' <= c <= 'Z' then (c as int + 32) as char else c
  }

  function ToLower(s: string): (r: string)
    ensures |r| == |s|
    ensures forall k :: 0 <= k < |s| ==> r[k] == LowerChar(s[k])
  {
    seq(|s|, k requires 0 <= k < |s| => LowerChar(s[k]))
  }

  /** Lower-casing leaves no upper-case ASCII letter behind. */
  lemma {:induction false} ToLowerIdempotent(s: string)
    ensures ToLower(ToLower(s)) == ToLower(s)
  {
  }

  /** `parts.join(sep)`: the first part, then each further part after a
      separator. */
  function Join(parts: seq<string>, sep: string): (r: string)
    ensures parts == [] ==> r == []
    ensures |parts| == 1 ==> r == parts[0]
    ensures |parts| >= 2 ==> |r| >= |parts[0]| + |sep| && r[..|parts[0]| + |sep|] == parts[0] + sep
    ensures |parts| >= 1 ==> |r| >= |parts[|parts| - 1]| && r[|r| - |parts[|parts| - 1]|..] == parts[|parts| - 1]
  {
    if parts == [] then []
    else if |parts| == 1 then parts[0]
    else
      var rest := Join(parts[1..], sep);
      assert parts[1..][|parts[1..]| - 1] == parts[|parts| - 1];
      JoinedEnds(parts[0], sep, rest, parts[|parts| - 1]);
      parts[0] + sep + rest
  }

  /** Prepending keeps the front pieces at the front and the end at the end. */
  lemma JoinedEnds(a: string, sep: string, rest: string, last: string)
    requires |rest| >= |last| && rest[|rest| - |last|..] == last
    ensures (a + sep + rest)[..|a| + |sep|] == a + sep
    ensures (a + sep + rest)[|a + sep + rest| - |last|..] == last
  {
    var r := a + sep + rest;
    assert r[|r| - |rest|..] == rest;
    assert r[|r| - |last|..] == rest[|rest| - |last|..];
  }

  // ---------------------------------------------------------------------
  // Rendering integers (`String(n)`, template literals)
  // ---------------------------------------------------------------------

  function DigitChar(d: nat): (c: char)
    requires d < 10
    ensures IsDigit(c) && DigitValue(c) == d
  {
    ('0' as int + d) as char
  }

  predicate IsDigit(c: char) {
    '0' <= c <= '9'
  }

  function DigitValue(c: char): nat
    requires IsDigit(c)
  {
    c as int - '0' as int
  }

  /** The decimal rendering of a natural number. */
  function NatToString(n: nat): (r: string)
    ensures |r| >= 1
    ensures forall k :: 0 <= k < |r| ==> IsDigit(r[k])
    ensures |r| > 1 ==> r[0] != '0'
    ensures n < 10 <==> |r| == 1
    decreases n
  {
    if n < 10 then [DigitChar(n)] else NatToString(n / 10) + [DigitChar(n % 10)]
  }

  /** Reading a string of decimal digits back as a number. */
  function ParseDecimal(s: string): nat
    requires forall k :: 0 <= k < |s| ==> IsDigit(s[k])
  {
    if s == [] then 0 else ParseDecimal(s[..|s| - 1]) * 10 + DigitValue(s[|s| - 1])
  }

  /** Rendering then reading a number gives it back, so distinct numbers
      render differently. */
  lemma {:induction false} NatToStringRoundTrip(n: nat)
    ensures ParseDecimal(NatToString(n)) == n
    decreases n
  {
    var r := NatToString(n);
    if n >= 10 {
      NatToStringRoundTrip(n / 10);
      assert r[..|r| - 1] == NatToString(n / 10);
      assert DigitValue(r[|r| - 1]) == n % 10;
    } else {
      assert DigitValue(r[0]) == n;
    }
  }

  lemma {:induction false} NatToStringInjective(m: nat, n: nat)
    requires NatToString(m) == NatToString(n)
    ensures m == n
  {
    NatToStringRoundTrip(m);
    NatToStringRoundTrip(n);
  }

  /** The rendering of an integer (with a leading minus sign). */
  function IntToString(i: int): string {
    if i < 0 then "-" + NatToString(-i) else NatToString(i)
  }

  /** `String(s).padStart(2, "0")` */
  function PadStart2(s: string): (r: string)
    ensures |r| == if |s| < 2 then 2 else |s|
    ensures r[|r| - |s|..] == s
    ensures forall k :: 0 <= k < |r| - |s| ==> r[k] == '0'
  {
    if |s| == 0 then "00" else if |s| == 1 then "0" + s else s
  }

  /** `s` is two decimal digits that read as `n`. */
  predicate TwoDigitsOf(s: string, n: nat) {
    |s| == 2 && IsDigit(s[0]) && IsDigit(s[1]) && DigitValue(s[0]) * 10 + DigitValue(s[1]) == n
  }

  /** Two-digit rendering of a number below 100, read back. */
  lemma {:induction false} PadStart2Value(n: nat)
    requires n < 100
    ensures TwoDigitsOf(PadStart2(NatToString(n)), n)
  {
    if n < 10 {
      assert PadStart2(NatToString(n)) == ['0', DigitChar(n)];
    } else {
      assert NatToString(n / 10) == [DigitChar(n / 10)];
      assert PadStart2(NatToString(n)) == [DigitChar(n / 10), DigitChar(n % 10)];
    }
  }

  // ---------------------------------------------------------------------
  // Counting, summing, distinct values
  // ---------------------------------------------------------------------

  /** How many entries of `keys` equal `k`. */
  function CountOf<K(==)>(keys: seq<K>, k: K): nat {
    if keys == [] then 0
    else CountOf(keys[..|keys| - 1], k) + (if keys[|keys| - 1] == k then 1 else 0)
  }

  /** `m[k] ?? 0` */
  function Lookup0<K>(m: map<K, nat>, k: K): nat {
    if k in m then m[k] else 0
  }

  /** The count is the multiplicity of `k` in the bag of keys. */
  lemma {:induction false} CountOfIsMultiplicity<K>(keys: seq<K>, k: K)
    ensures CountOf(keys, k) == multiset(keys)[k]
  {
    if keys != [] {
      var n := |keys| - 1;
      CountOfIsMultiplicity(keys[..n], k);
      assert keys == keys[..n] + [keys[n]];
      assert multiset(keys) == multiset(keys[..n]) + multiset{keys[n]};
    }
  }

  lemma {:induction false} CountOfPositiveIffPresent<K>(keys: seq<K>, k: K)
    ensures CountOf(keys, k) > 0 <==> k in keys
  {
    CountOfIsMultiplicity(keys, k);
  }

  /** The loop `for (const key of keys) counts[key] = (counts[key] ?? 0) + 1`.
      Afterwards every key's entry is its number of occurrences, and a key
      has an entry exactly when it occurs. */
  method CountByKey<K(==)>(keys: seq<K>) returns (counts: map<K, nat>)
    ensures forall k :: Lookup0(counts, k) == CountOf(keys, k)
    ensures forall k :: k in counts <==> k in keys
  {
    counts := map[];
    var i := 0;
    while i < |keys|
      invariant 0 <= i <= |keys|
      invariant forall k :: Lookup0(counts, k) == CountOf(keys[..i], k)
      invariant forall k :: k in counts <==> k in keys[..i]
    {
      var key := keys[i];
      assert keys[..i + 1][..i] == keys[..i];
      assert keys[..i + 1] == keys[..i] + [key];
      counts := counts[key := Lookup0(counts, key) + 1];
      i := i + 1;
    }
    assert keys[..i] == keys;
  }

  function Sum(xs: seq<int>): int {
    if xs == [] then 0 else Sum(xs[..|xs| - 1]) + xs[|xs| - 1]
  }

  lemma {:induction false} SumNonNegative(xs: seq<int>)
    requires forall k :: 0 <= k < |xs| ==> xs[k] >= 0
    ensures Sum(xs) >= 0
  {
    if xs != [] { SumNonNegative(xs[..|xs| - 1]); }
  }

  lemma {:induction false} SumAppend(xs: seq<int>, ys: seq<int>)
    ensures Sum(xs + ys) == Sum(xs) + Sum(ys)
    decreases |ys|
  {
    if ys == [] {
      assert xs + ys == xs;
    } else {
      var n := |ys| - 1;
      SumAppend(xs, ys[..n]);
      assert (xs + ys)[..|xs + ys| - 1] == xs + ys[..n];
    }
  }

  /** `[...new Set(xs)]`: the distinct values in order of first appearance. */
  function Distinct<K(==,!new)>(xs: seq<K>): (r: seq<K>)
    ensures forall x :: x in r <==> x in xs
    ensures forall i, j :: 0 <= i < j < |r| ==> r[i] != r[j]
    ensures |r| <= |xs|
  {
    if xs == [] then []
    else
      var d := Distinct(xs[..|xs| - 1]);
      var x := xs[|xs| - 1];
      assert forall y :: y in xs <==> y in xs[..|xs| - 1] || y == x by {
        assert xs == xs[..|xs| - 1] + [x];
      }
      if x in d then d else d + [x]
  }

  /** A sequence without repetitions is as long as its set of values. */
  lemma {:induction false} DistinctCardinality<K>(r: seq<K>)
    requires forall i, j :: 0 <= i < j < |r| ==> r[i] != r[j]
    ensures |set x | x in r| == |r|
  {
    if r != [] {
      var n := |r| - 1;
      DistinctCardinality(r[..n]);
      assert r == r[..n] + [r[n]];
      assert (set x | x in r) == (set x | x in r[..n]) + {r[n]};
    }
  }

  // ---------------------------------------------------------------------
  // Stable sort by a descending integer key (`xs.sort((a, b) => key(b) - key(a))`)
  // ---------------------------------------------------------------------

  predicate SortedDesc<T>(s: seq<T>, key: T -> int) {
    forall i, j :: 0 <= i < j < |s| ==> key(s[i]) >= key(s[j])
  }

  /** Inserts `x` after every element whose key is at least its own, so
      that equal keys keep their arrival order. */
  function InsertDesc<T>(x: T, s: seq<T>, key: T -> int): (r: seq<T>)
    ensures multiset(r) == multiset(s) + multiset{x}
  {
    if s == [] then [x]
    else if key(s[0]) >= key(x) then
      assert s == [s[0]] + s[1..];
      [s[0]] + InsertDesc(x, s[1..], key)
    else [x] + s
  }

  lemma {:induction false} InsertDescMembers<T>(x: T, s: seq<T>, key: T -> int, y: T)
    requires y in InsertDesc(x, s, key)
    ensures y == x || y in s
  {
    assert y in multiset(InsertDesc(x, s, key));
  }

  lemma {:induction false} InsertDescSorted<T>(x: T, s: seq<T>, key: T -> int)
    requires SortedDesc(s, key)
    ensures SortedDesc(InsertDesc(x, s, key), key)
  {
    if s != [] && key(s[0]) >= key(x) {
      var t := InsertDesc(x, s[1..], key);
      InsertDescSorted(x, s[1..], key);
      var r := [s[0]] + t;
      assert r == InsertDesc(x, s, key);
      forall j | 0 < j < |r| ensures key(r[0]) >= key(r[j]) {
        InsertDescMembers(x, s[1..], key, t[j - 1]);
      }
    }
  }

  /** Insertion sort, the stable sort JavaScript engines perform. */
  function SortDesc<T>(s: seq<T>, key: T -> int): (r: seq<T>)
    ensures multiset(r) == multiset(s)
    ensures SortedDesc(r, key)
    ensures |r| == |s|
  {
    if s == [] then []
    else
      var n := |s| - 1;
      assert s == s[..n] + [s[n]];
      InsertDescSorted(s[n], SortDesc(s[..n], key), key);
      InsertDesc(s[n], SortDesc(s[..n], key), key)
  }

  /** Sorting depends only on the keys' values. */
  lemma {:induction false} SortDescCongruent<T>(s: seq<T>, k1: T -> int, k2: T -> int)
    requires forall x :: k1(x) == k2(x)
    ensures SortDesc(s, k1) == SortDesc(s, k2)
  {
    if s != [] {
      SortDescCongruent(s[..|s| - 1], k1, k2);
      InsertDescCongruent(s[|s| - 1], SortDesc(s[..|s| - 1], k1), k1, k2);
    }
  }

  lemma {:induction false} InsertDescCongruent<T>(x: T, s: seq<T>, k1: T -> int, k2: T -> int)
    requires forall y :: k1(y) == k2(y)
    ensures InsertDesc(x, s, k1) == InsertDesc(x, s, k2)
  {
    if s != [] {
      InsertDescCongruent(x, s[1..], k1, k2);
    }
  }

  /** The elements of `s` whose key is `v`, in their order in `s`. */
  function WithKey<T>(s: seq<T>, key: T -> int, v: int): (r: seq<T>)
    ensures forall k :: 0 <= k < |r| ==> key(r[k]) == v
    ensures |r| <= |s|
  {
    if s == [] then [] else (if key(s[0]) == v then [s[0]] else []) + WithKey(s[1..], key, v)
  }

  lemma {:induction false} WithKeyAppend<T>(s: seq<T>, u: seq<T>, key: T -> int, v: int)
    ensures WithKey(s + u, key, v) == WithKey(s, key, v) + WithKey(u, key, v)
  {
    if s == [] {
      assert s + u == u;
    } else {
      var head := if key(s[0]) == v then [s[0]] else [];
      WithKeyAppend(s[1..], u, key, v);
      assert (s + u)[0] == s[0] && (s + u)[1..] == s[1..] + u;
      ConcatAssoc(head, WithKey(s[1..], key, v), WithKey(u, key, v));
    }
  }

  /** A sorted list whose first key is below `v` holds no element with key `v`. */
  lemma {:induction false} WithKeyBelow<T>(s: seq<T>, key: T -> int, v: int)
    requires SortedDesc(s, key) && (s == [] || key(s[0]) < v)
    ensures WithKey(s, key, v) == []
  {
    if s != [] {
      assert SortedDesc(s[1..], key) && (s[1..] == [] || key(s[1..][0]) <= key(s[0]));
      WithKeyBelow(s[1..], key, v);
    }
  }

  /** Inserting `x` puts it after every element of equal key already there. */
  lemma {:induction false} InsertDescStable<T>(x: T, s: seq<T>, key: T -> int, v: int)
    requires SortedDesc(s, key)
    ensures WithKey(InsertDesc(x, s, key), key, v) == WithKey(s, key, v) + WithKey([x], key, v)
  {
    assert WithKey([x], key, v) == (if key(x) == v then [x] else []) + WithKey([], key, v);
    if s == [] {
    } else if key(s[0]) >= key(x) {
      assert SortedDesc(s[1..], key);
      InsertDescStable(x, s[1..], key, v);
      WithKeyAppend([s[0]], InsertDesc(x, s[1..], key), key, v);
      WithKeyAppend([s[0]], s[1..], key, v);
      assert [s[0]] + s[1..] == s;
      assert [s[0]][1..] == [];
      ConcatAssoc(WithKey([s[0]], key, v), WithKey(s[1..], key, v), WithKey([x], key, v));
    } else {
      WithKeyAppend([x], s, key, v);
      if key(x) == v {
        WithKeyBelow(s, key, v);
      } else {
        assert WithKey([x], key, v) == [];
      }
    }
  }

  /** The sort is stable: for every key value, the elements with that key
      come out in the order they went in. */
  lemma {:induction false} SortDescStable<T>(s: seq<T>, key: T -> int, v: int)
    ensures WithKey(SortDesc(s, key), key, v) == WithKey(s, key, v)
  {
    if s != [] {
      var n := |s| - 1;
      SortDescStable(s[..n], key, v);
      InsertDescStable(s[n], SortDesc(s[..n], key), key, v);
      assert s == s[..n] + [s[n]];
      WithKeyAppend(s[..n], [s[n]], key, v);
    }
  }

  /** How `Array.prototype.slice` reads an index: negative counts from the
      end, and the result is clamped to `0..len`. */
  function SliceIndex(i: int, len: nat): (r: nat)
    ensures r <= len
    ensures 0 <= i <= len ==> r == i
  {
    if i < 0 then (if len + i < 0 then 0 else len + i) else if i > len then len else i
  }

  /** `xs.slice(start, end)` */
  function Slice<T>(xs: seq<T>, start: int, end: int): (r: seq<T>)
    ensures |r| <= |xs|
  {
    var s, e := SliceIndex(start, |xs|), SliceIndex(end, |xs|);
    if s < e then xs[s..e] else []
  }

  /** For a non-negative offset and limit, `xs.slice(offset, offset +
      limit)` is the page of at most `limit` items starting at `offset`. */
  lemma {:induction false} SlicePage<T>(xs: seq<T>, offset: nat, limit: nat)
    ensures var r := Slice(xs, offset, offset + limit);
      && |r| == (if offset >= |xs| then 0 else if offset + limit <= |xs| then limit else |xs| - offset)
      && forall k :: 0 <= k < |r| ==> r[k] == xs[offset + k]
  {
  }

  /** A page of a list sorted by descending key is itself sorted, holds
      at most `limit` items, and only items of the list. */
  lemma {:induction false} SortedPage<T>(sorted: seq<T>, key: T -> int, offset: nat, limit: nat)
    requires SortedDesc(sorted, key)
    ensures var p := Slice(sorted, offset, offset + limit);
      |p| <= limit && SortedDesc(p, key) && forall x :: x in p ==> x in sorted
  {
    SlicePage(sorted, offset, limit);
    var p := Slice(sorted, offset, offset + limit);
    forall i, j | 0 <= i < j < |p| ensures key(p[i]) >= key(p[j]) {
      assert p[i] == sorted[offset + i] && p[j] == sorted[offset + j];
    }
    forall x | x in p ensures x in sorted {
      var k :| 0 <= k < |p| && p[k] == x;
      assert sorted[offset + k] == x;
    }
  }

  // ---------------------------------------------------------------------
  // `new Map(rows.map((r) => [key(r), r]))`
  // ---------------------------------------------------------------------

  /** The row a map keyed by `key` keeps for `k`: the last row with that
      key, since a later `set` overwrites an earlier one. */
  function LastWithKey<T>(rows: seq<T>, key: T -> string, k: string): (r: Option<T>)
    ensures r.Some? ==> r.value in rows && key(r.value) == k
    ensures r.None? <==> forall x :: x in rows ==> key(x) != k
  {
    if rows == [] then None
    else
      var last := rows[|rows| - 1];
      assert rows == rows[..|rows| - 1] + [last];
      if key(last) == k then Some(last) else LastWithKey(rows[..|rows| - 1], key, k)
  }

  /** No later row carries the key of the one kept. */
  lemma {:induction false} LastWithKeyIsLast<T>(rows: seq<T>, key: T -> string, k: string)
    requires LastWithKey(rows, key, k).Some?
    ensures exists i :: (0 <= i < |rows| && rows[i] == LastWithKey(rows, key, k).value
      && forall j :: i < j < |rows| ==> key(rows[j]) != k)
  {
    var n := |rows| - 1;
    var v := LastWithKey(rows, key, k).value;
    if key(rows[n]) == k {
      assert rows[n] == v;
    } else {
      var front := rows[..n];
      assert LastWithKey(rows, key, k) == LastWithKey(front, key, k);
      LastWithKeyIsLast(front, key, k);
      var i :| 0 <= i < n && front[i] == v && forall j :: i < j < n ==> key(front[j]) != k;
      LaterRowsOfPrefix(rows, front, key, k, i);
    }
  }

  /** No row after `i` has key `k`, given that none after it in the prefix
      without the last row has and the last row has not. */
  lemma {:induction false} LaterRowsOfPrefix<T>(rows: seq<T>, front: seq<T>, key: T -> string, k: string, i: int)
    requires |rows| > 0 && front == rows[..|rows| - 1]
    requires 0 <= i < |front| && key(rows[|front|]) != k
    requires forall j :: i < j < |front| ==> key(front[j]) != k
    ensures forall j :: i < j < |rows| ==> key(rows[j]) != k
  {
    assert forall j :: i < j < |front| ==> front[j] == rows[j];
  }

  // ---------------------------------------------------------------------
  // Lists of distinct strings (`includes`, `filter((x) => x !== v)`)
  // ---------------------------------------------------------------------

  predicate NoRepeats(s: seq<string>) {
    forall i, j :: 0 <= i < j < |s| ==> s[i] != s[j]
  }

  /** A value of a list without repetitions sits at exactly one index. */
  lemma {:induction false} UniqueIndex(s: seq<string>, x: string)
    requires NoRepeats(s) && x in s
    ensures exists i :: 0 <= i < |s| && s[i] == x && forall j :: 0 <= j < |s| && s[j] == x ==> j == i
  {
    var i :| 0 <= i < |s| && s[i] == x;
    assert forall j :: 0 <= j < |s| && s[j] == x ==> j == i;
  }

  /** `s.filter((y) => y !== x)`, and on a string `s.replace(/x/g, "")`
      for a single character `x`: every occurrence of `x` is dropped and
      everything else is kept. */
  function Without<T(==,!new)>(s: seq<T>, x: T): (r: seq<T>)
    ensures x !in r
    ensures forall y :: y in r <==> y in s && y != x
    ensures |r| <= |s|
  {
    if s == [] then [] else (if s[0] == x then [] else [s[0]]) + Without(s[1..], x)
  }

  /** Filtering drops every copy of `x` and keeps every copy of anything
      else. */
  lemma {:induction false} WithoutCounts<T(!new)>(s: seq<T>, x: T)
    ensures multiset(Without(s, x)) == multiset(s)[x := 0]
  {
    if s != [] {
      var tail := Without(s[1..], x);
      WithoutCounts(s[1..], x);
      assert s == [s[0]] + s[1..];
      assert multiset(s) == multiset{s[0]} + multiset(s[1..]);
      if s[0] != x {
        assert Without(s, x) == [s[0]] + tail;
        assert multiset(Without(s, x)) == multiset{s[0]} + multiset(tail);
      }
    }
  }

  /** In a list without repetitions, filtering out a present value removes
      exactly its one position and keeps the others in order. */
  lemma {:induction false} WithoutRemovesOne(s: seq<string>, i: nat)
    requires NoRepeats(s) && i < |s|
    ensures Without(s, s[i]) == s[..i] + s[i + 1..]
  {
    if i == 0 {
      WithoutAbsent(s[1..], s[0]);
      assert s[..0] + s[1..] == s[1..];
    } else {
      WithoutRemovesOne(s[1..], i - 1);
      assert s[1..][..i - 1] + s[1..][i..] == s[1..i] + s[i + 1..];
      assert s[..i] + s[i + 1..] == [s[0]] + (s[1..i] + s[i + 1..]);
    }
  }

  lemma {:induction false} WithoutAbsent(s: seq<string>, x: string)
    requires x !in s
    ensures Without(s, x) == s
  {
    if s != [] {
      WithoutAbsent(s[1..], x);
    }
  }

  /** Removing a value that was just added restores the list it was added to. */
  lemma {:induction false} AddThenRemove(s: seq<string>, t: string)
    requires t !in s
    ensures Without(s + [t], t) == s
  {
    WithoutAbsent(s, t);
    WithoutAppend(s, [t], t);
  }

  /** Filtering works piece by piece, so the kept values stay in their
      order: together with the one-element cases this pins `Without` down. */
  lemma {:induction false} WithoutAppend<T(!new)>(s: seq<T>, u: seq<T>, x: T)
    ensures Without(s + u, x) == Without(s, x) + Without(u, x)
  {
    if s == [] {
      assert s + u == u;
    } else {
      var head := if s[0] == x then [] else [s[0]];
      var front, back := Without(s[1..], x), Without(u, x);
      WithoutAppend(s[1..], u, x);
      assert (s + u)[0] == s[0] && (s + u)[1..] == s[1..] + u;
      assert Without(s + u, x) == head + (front + back);
      assert Without(s, x) == head + front;
      ConcatAssoc(head, front, back);
    }
  }

  lemma {:induction false} ConcatAssoc<T>(a: seq<T>, b: seq<T>, c: seq<T>)
    ensures a + (b + c) == (a + b) + c
  {
  }

  lemma {:induction false} WithoutKeepsNoRepeats(s: seq<string>, x: string)
    requires NoRepeats(s)
    ensures NoRepeats(Without(s, x))
  {
    if x in s {
      var i :| 0 <= i < |s| && s[i] == x;
      WithoutRemovesOne(s, i);
    } else {
      WithoutAbsent(s, x);
    }
  }
}
