/**
 * The parts of java.lang (and of java.util.regex splitting) that the modelled
 * code relies on: 32-bit `int` arithmetic, integer division that truncates
 * toward zero, and the String operations startsWith, endsWith, contains,
 * trim, split, replace and case conversion.
 */
module JavaLang {

  const INT_MAX: int := 0x7fff_ffff
  const INT_MIN: int := -0x8000_0000

  /** A value of Java's 32-bit `int` type. */
  predicate IsInt(x: int) {
    INT_MIN <= x <= INT_MAX
  }

  /** The two's complement wrap-around of a Java `int` operation whose exact result is `x`. */
  function Wrap(x: int): (r: int)
    ensures IsInt(r)
    ensures IsInt(x) ==> r == x
    ensures (r - x) % 0x1_0000_0000 == 0
  {
    (x - INT_MIN) % 0x1_0000_0000 + INT_MIN
  }

  function Abs(x: int): nat {
    if x < 0 then -x else x
  }

  /** Java's `x / 2`: the half truncated toward zero (Dafny's `/` is Euclidean). */
  function Half(x: int): (q: int)
    ensures x >= 0 ==> 0 <= x - 2 * q <= 1
    ensures x < 0 ==> -1 <= x - 2 * q <= 0
  {
    if x >= 0 then x / 2 else -(-x / 2)
  }

  function Min(a: int, b: int): int {
    if a <= b then a else b
  }

  function Max(a: int, b: int): int {
    if a >= b then a else b
  }

  // ---------------------------------------------------------------------
  // String predicates

  predicate StartsWith(s: string, prefix: string) {
    |prefix| <= |s| && s[..|prefix|] == prefix
  }

  predicate EndsWith(s: string, suffix: string) {
    |suffix| <= |s| && s[|s| - |suffix|..] == suffix
  }

  /** `t` occurs in `s` starting at index `i`. */
  predicate OccursAt(s: string, t: string, i: int) {
    0 <= i && i + |t| <= |s| && s[i..i + |t|] == t
  }

  /** Java's `s.contains(t)`, scanning `s` from the left. */
  predicate Contains(s: string, t: string)
    decreases |s|
  {
    StartsWith(s, t) || (|s| > 0 && Contains(s[1..], t))
  }

  /** `Contains` finds exactly the strings that occur somewhere in `s`. */
  lemma {:induction false} ContainsIffOccurs(s: string, t: string)
    ensures Contains(s, t) <==> exists i :: OccursAt(s, t, i)
    decreases |s|
  {
    if |s| > 0 {
      ContainsIffOccurs(s[1..], t);
    }
    if Contains(s, t) {
      if StartsWith(s, t) {
        assert OccursAt(s, t, 0);
      } else {
        var i :| OccursAt(s[1..], t, i);
        assert s[1..][i..i + |t|] == s[i + 1..i + 1 + |t|];
        assert OccursAt(s, t, i + 1);
      }
    }
    forall i | OccursAt(s, t, i) ensures Contains(s, t) {
      if i == 0 {
        assert StartsWith(s, t);
      } else {
        assert s[1..][i - 1..i - 1 + |t|] == s[i..i + |t|];
        assert OccursAt(s[1..], t, i - 1);
      }
    }
  }

  // ---------------------------------------------------------------------
  // Case conversion (ASCII letters)

  function LowerChar(c: char): char {
    if 'A' <= c <= 'Z' then (c as int + 32) as char else c
  }

  function UpperChar(c: char): char {
    if 'a' <= c <= 'z' then (c as int - 32) as char else c
  }

  /** Java's `toLowerCase()`, restricted to the ASCII letters. */
  function ToLower(s: string): (r: string)
    ensures |r| == |s|
  {
    seq(|s|, i requires 0 <= i < |s| => LowerChar(s[i]))
  }

  /** Java's `toUpperCase()`, restricted to the ASCII letters. */
  function ToUpper(s: string): (r: string)
    ensures |r| == |s|
  {
    seq(|s|, i requires 0 <= i < |s| => UpperChar(s[i]))
  }

  // ---------------------------------------------------------------------
  // trim

  /** Java's `trim()` drops leading and trailing characters up to U+0020. */
  predicate Trimmable(c: char) {
    c <= ' '
  }

  function TrimStart(s: string): (r: string)
    ensures |r| <= |s| && r == s[|s| - |r|..]
    ensures r == [] || !Trimmable(r[0])
  {
    if |s| > 0 && Trimmable(s[0]) then TrimStart(s[1..]) else s
  }

  function TrimEnd(s: string): (r: string)
    ensures |r| <= |s| && r == s[..|r|]
    ensures r == [] || !Trimmable(r[|r| - 1])
  {
    if |s| > 0 && Trimmable(s[|s| - 1]) then TrimEnd(s[..|s| - 1]) else s
  }

  function Trim(s: string): (r: string)
    ensures r == [] || (!Trimmable(r[0]) && !Trimmable(r[|r| - 1]))
  {
    var t := TrimStart(s);
    var r := TrimEnd(t);
    assert r != [] ==> r[0] == t[0];
    r
  }

  // ---------------------------------------------------------------------
  // split

  /** The characters of the regular expression class `\s`. */
  predicate IsSpace(c: char) {
    c == ' ' || c == '\t' || c == '\n' || c == '\U{0B}' || c == '\U{0C}' || c == '\r'
  }

  /** Pieces of `s` between the occurrences of `sep`, every occurrence a delimiter, empty pieces kept. */
  function SplitAll(s: string, sep: char): (r: seq<string>)
    ensures |r| >= 1
  {
    if s == [] then [[]]
    else
      var rest := SplitAll(s[1..], sep);
      if s[0] == sep then [[]] + rest else [[s[0]] + rest[0]] + rest[1..]
  }

  /** Pieces of `s` between maximal runs of `\s` characters, empty pieces kept. */
  function SplitRuns(s: string): (r: seq<string>)
    ensures |r| >= 1
  {
    if s == [] then [[]]
    else
      var rest := SplitRuns(s[1..]);
      if IsSpace(s[0]) then
        (if |s| > 1 && IsSpace(s[1]) then rest else [[]] + rest)
      else
        [[s[0]] + rest[0]] + rest[1..]
  }

  /** Java's `split` drops the trailing empty pieces. */
  function DropTrailingEmpty(ps: seq<string>): (r: seq<string>)
    ensures |r| <= |ps| && r == ps[..|r|]
    ensures r == [] || r[|r| - 1] != []
  {
    if |ps| > 0 && ps[|ps| - 1] == [] then DropTrailingEmpty(ps[..|ps| - 1]) else ps
  }

  /** Java's `s.split(String.valueOf(sep))` for a separator that is not a regex metacharacter. */
  function Split(s: string, sep: char): seq<string> {
    if sep !in s then [s] else DropTrailingEmpty(SplitAll(s, sep))
  }

  /** Java's `s.split("\\s+")`. */
  function SplitWhitespace(s: string): seq<string> {
    if forall i | 0 <= i < |s| :: !IsSpace(s[i]) then [s] else DropTrailingEmpty(SplitRuns(s))
  }

  lemma {:induction false} SplitAllNoSep(s: string, sep: char)
    requires sep !in s
    ensures SplitAll(s, sep) == [s]
  {
    if s != [] {
      assert s[0] != sep && sep !in s[1..];
      SplitAllNoSep(s[1..], sep);
      assert [s[0]] + s[1..] == s;
    }
  }

  lemma {:induction false} SplitAllPrefix(k: string, rest: string, sep: char)
    requires sep !in k
    ensures SplitAll(k + rest, sep) == [k + SplitAll(rest, sep)[0]] + SplitAll(rest, sep)[1..]
  {
    if k == [] {
      var r := SplitAll(rest, sep);
      assert k + rest == rest && k + r[0] == r[0];
      assert [r[0]] + r[1..] == r;
    }
    if k != [] {
      var r := SplitAll(rest, sep);
      assert (k + rest)[0] == k[0] != sep;
      assert (k + rest)[1..] == k[1..] + rest;
      SplitAllPrefix(k[1..], rest, sep);
      assert [k[0]] + (k[1..] + r[0]) == k + r[0];
    }
  }

  lemma {:induction false} SplitRunsNoSpace(s: string)
    requires forall i | 0 <= i < |s| :: !IsSpace(s[i])
    ensures SplitRuns(s) == [s]
  {
    if s != [] {
      SplitRunsNoSpace(s[1..]);
      assert [s[0]] + s[1..] == s;
    }
  }

  lemma {:induction false} SplitRunsPrefix(k: string, rest: string)
    requires forall i | 0 <= i < |k| :: !IsSpace(k[i])
    ensures SplitRuns(k + rest) == [k + SplitRuns(rest)[0]] + SplitRuns(rest)[1..]
  {
    if k == [] {
      var r := SplitRuns(rest);
      assert k + rest == rest && k + r[0] == r[0];
      assert [r[0]] + r[1..] == r;
    }
    if k != [] {
      var r := SplitRuns(rest);
      assert (k + rest)[0] == k[0] && !IsSpace(k[0]);
      assert (k + rest)[1..] == k[1..] + rest;
      SplitRunsPrefix(k[1..], rest);
      assert [k[0]] + (k[1..] + r[0]) == k + r[0];
    }
  }

  // ---------------------------------------------------------------------
  // replace

  /**
   * Java's `s.replace(target, replacement)`: every non-overlapping occurrence
   * of `target`, scanning from the left, is replaced; an empty target inserts
   * the replacement before every character and at the end.
   */
  function ReplaceAll(s: string, target: string, replacement: string): string
    decreases |s|
  {
    if target == [] then
      replacement + (if s == [] then [] else [s[0]] + ReplaceAll(s[1..], target, replacement))
    else if s == [] then []
    else if StartsWith(s, target) then replacement + ReplaceAll(s[|target|..], target, replacement)
    else [s[0]] + ReplaceAll(s[1..], target, replacement)
  }

  // ---------------------------------------------------------------------
  // java.util.HashMap filled by a sequence of put calls

  /** The map left by `m.put(k, v)` for every pair of `pairs` in turn. */
  function PutInOrder<K, V>(m: map<K, V>, pairs: seq<(K, V)>): (r: map<K, V>)
    ensures r.Keys == m.Keys + set i | 0 <= i < |pairs| :: pairs[i].0
    decreases |pairs|
  {
    if pairs == [] then m
    else
      var init := pairs[..|pairs| - 1];
      var rest := PutInOrder(m, init);
      assert forall i | 0 <= i < |init| :: init[i] == pairs[i];
      rest[pairs[|pairs| - 1].0 := pairs[|pairs| - 1].1]
  }

  /** The last put of a key decides its value. */
  lemma {:induction false} PutInOrderLastWins<K, V>(m: map<K, V>, pairs: seq<(K, V)>, j: int)
    requires 0 <= j < |pairs|
    requires forall i | j < i < |pairs| :: pairs[i].0 != pairs[j].0
    ensures pairs[j].0 in PutInOrder(m, pairs)
    ensures PutInOrder(m, pairs)[pairs[j].0] == pairs[j].1
    decreases |pairs|
  {
    if j < |pairs| - 1 {
      var init := pairs[..|pairs| - 1];
      assert forall i | j < i < |init| :: init[i] == pairs[i];
      PutInOrderLastWins(m, init, j);
    }
  }

  /** Every key of the result holds the value of some pair put under it, or keeps its value from `m`. */
  lemma {:induction false} PutInOrderFromPairs<K, V>(m: map<K, V>, pairs: seq<(K, V)>, k: K)
    requires k in PutInOrder(m, pairs)
    ensures (exists i :: 0 <= i < |pairs| && pairs[i] == (k, PutInOrder(m, pairs)[k])) ||
            (k in m && PutInOrder(m, pairs)[k] == m[k])
    decreases |pairs|
  {
    if pairs != [] {
      var init := pairs[..|pairs| - 1];
      var last := pairs[|pairs| - 1];
      if last.0 == k {
        assert pairs[|pairs| - 1] == (k, PutInOrder(m, pairs)[k]);
      } else {
        PutInOrderFromPairs(m, init, k);
        if exists i :: 0 <= i < |init| && init[i] == (k, PutInOrder(m, init)[k]) {
          var i :| 0 <= i < |init| && init[i] == (k, PutInOrder(m, init)[k]);
          assert pairs[i] == init[i];
        }
      }
    }
  }

  /** A key no pair mentions keeps its value from `m`. */
  lemma {:induction false} PutInOrderUntouched<K, V>(m: map<K, V>, pairs: seq<(K, V)>, k: K)
    requires k in m
    requires forall i | 0 <= i < |pairs| :: pairs[i].0 != k
    ensures PutInOrder(m, pairs)[k] == m[k]
    decreases |pairs|
  {
    if pairs != [] {
      var init := pairs[..|pairs| - 1];
      assert forall i | 0 <= i < |init| :: init[i] == pairs[i];
      PutInOrderUntouched(m, init, k);
    }
  }
}
