/**
 * The string operations of Python's `str` that the extraction engine relies on:
 * `strip`, `lower`, `split(sep)`, `split()`, `join`, `isdigit` and `int`.
 * Characters are modelled as ASCII: whitespace is the ten ASCII characters `str.isspace`
 * accepts (space, tab, line feed, vertical tab, form feed, carriage return and the four
 * separators `\x1c`..`\x1f`), and `lower` maps only `A`..`Z`.
 */
module Text {

  predicate IsSpace(c: char) {
    || c == ' ' || c == '\t' || c == '\n' || c == '\r' || c == '\U{000B}' || c == '\U{000C}'
    || '\U{001C}' <= c <= '\U{001F}'
  }

  predicate IsUpperAscii(c: char) { 'A' <= c <= 'Z' }

  predicate IsLowerAscii(c: char) { 'a' <= c <= 'z' }

  predicate IsDigit(c: char) { '0' <= c <= '9' }

  function LowerChar(c: char): char {
    if IsUpperAscii(c) then (c as int + 32) as char else c
  }

  /** `s.lower()` */
  function Lower(s: string): (r: string)
    ensures |r| == |s|
    ensures forall i | 0 <= i < |s| :: r[i] == LowerChar(s[i])
  {
    seq(|s|, i requires 0 <= i < |s| => LowerChar(s[i]))
  }

  /** The position of the first non-whitespace character at or after `i` (`|s|` if none). */
  function SkipSpace(s: string, i: nat): (j: nat)
    requires i <= |s|
    ensures i <= j <= |s|
    decreases |s| - i
  {
    if i < |s| && IsSpace(s[i]) then SkipSpace(s, i + 1) else i
  }

  /** The position just after the last non-whitespace character before `j` (0 if none). */
  function SkipSpaceBack(s: string, j: nat): (i: nat)
    requires j <= |s|
    ensures i <= j
  {
    if 0 < j && IsSpace(s[j - 1]) then SkipSpaceBack(s, j - 1) else j
  }

  /** `SkipSpace` passes over whitespace only and stops at a non-whitespace character or the end. */
  lemma {:induction false} SkipSpaceSkipsSpace(s: string, i: nat)
    requires i <= |s|
    ensures forall k | i <= k < SkipSpace(s, i) :: IsSpace(s[k])
    ensures SkipSpace(s, i) < |s| ==> !IsSpace(s[SkipSpace(s, i)])
    decreases |s| - i
  {
    if i < |s| && IsSpace(s[i]) {
      SkipSpaceSkipsSpace(s, i + 1);
    }
  }

  /** `SkipSpaceBack` passes back over whitespace only and stops after a non-whitespace character or at 0. */
  lemma {:induction false} SkipSpaceBackSkipsSpace(s: string, j: nat)
    requires j <= |s|
    ensures forall k | SkipSpaceBack(s, j) <= k < j :: IsSpace(s[k])
    ensures 0 < SkipSpaceBack(s, j) ==> !IsSpace(s[SkipSpaceBack(s, j) - 1])
  {
    if 0 < j && IsSpace(s[j - 1]) {
      SkipSpaceBackSkipsSpace(s, j - 1);
    }
  }

  /** `s.lstrip()` */
  function LStrip(s: string): (r: string)
    ensures |r| <= |s|
  {
    s[SkipSpace(s, 0)..]
  }

  /** `s.rstrip()` */
  function RStrip(s: string): (r: string)
    ensures |r| <= |s|
  {
    s[..SkipSpaceBack(s, |s|)]
  }

  /** `s.strip()`: the text between the leading and the trailing whitespace. */
  function Strip(s: string): (r: string)
    ensures |r| <= |s|
  {
    RStrip(LStrip(s))
  }

  /**
   * `strip` removes exactly the leading and the trailing whitespace: the result is the
   * slice `s[a..b]`, everything outside it is whitespace, and the result neither starts
   * nor ends with whitespace.
   */
  lemma {:induction false} StripTrims(s: string) returns (a: nat, b: nat)
    ensures a <= b <= |s| && Strip(s) == s[a..b]
    ensures forall k | 0 <= k < a :: IsSpace(s[k])
    ensures forall k | b <= k < |s| :: IsSpace(s[k])
    ensures Strip(s) == [] || (!IsSpace(Strip(s)[0]) && !IsSpace(Strip(s)[|Strip(s)| - 1]))
  {
    a := SkipSpace(s, 0);
    SkipSpaceSkipsSpace(s, 0);
    var t := s[a..];
    var e := SkipSpaceBack(t, |t|);
    SkipSpaceBackSkipsSpace(t, |t|);
    b := a + e;
    assert Strip(s) == t[..e] == s[a..b];
    forall k | b <= k < |s| ensures IsSpace(s[k]) {
      assert s[k] == t[k - a];
    }
    if Strip(s) != [] {
      assert Strip(s)[0] == t[0];
      assert Strip(s)[|Strip(s)| - 1] == t[e - 1];
    }
  }

  /** A string that neither starts nor ends with whitespace. */
  predicate Trimmed(s: string) {
    s == [] || (!IsSpace(s[0]) && !IsSpace(s[|s| - 1]))
  }

  /** `strip` leaves no outer whitespace. */
  lemma {:induction false} StripIsTrimmed(s: string)
    ensures Trimmed(Strip(s))
  {
    var _, _ := StripTrims(s);
  }

  /** `strip` leaves a string without leading or trailing whitespace as it is. */
  lemma {:induction false} StripOfTrimmed(s: string)
    requires Trimmed(s)
    ensures Strip(s) == s
  {
    if s != [] {
      assert SkipSpace(s, 0) == 0;
      assert s[0..] == s;
      assert SkipSpaceBack(s, |s|) == |s|;
    }
  }

  /** The key titles are compared by: `title.lower().strip()`. */
  function Key(s: string): string {
    Strip(Lower(s))
  }

  /** Two strings with whitespace at the same places skip the same leading whitespace. */
  lemma {:induction false} SkipSpaceAlike(s: string, t: string, i: nat)
    requires |s| == |t| && i <= |s|
    requires forall k | 0 <= k < |s| :: IsSpace(s[k]) == IsSpace(t[k])
    ensures SkipSpace(s, i) == SkipSpace(t, i)
    decreases |s| - i
  {
    if i < |s| && IsSpace(s[i]) {
      SkipSpaceAlike(s, t, i + 1);
    }
  }

  /** Two strings with whitespace at the same places skip the same trailing whitespace. */
  lemma {:induction false} SkipSpaceBackAlike(s: string, t: string, j: nat)
    requires |s| == |t| && j <= |s|
    requires forall k | 0 <= k < |s| :: IsSpace(s[k]) == IsSpace(t[k])
    ensures SkipSpaceBack(s, j) == SkipSpaceBack(t, j)
  {
    if 0 < j && IsSpace(s[j - 1]) {
      SkipSpaceBackAlike(s, t, j - 1);
    }
  }

  /** Lower-casing keeps every character's whitespace class, so it does not change what `strip` removes. */
  lemma {:induction false} KeyLength(s: string)
    ensures |Key(s)| == |Strip(s)|
  {
    var l := Lower(s);
    SkipSpaceAlike(s, l, 0);
    var a := SkipSpace(s, 0);
    var t := s[a..];
    var lt := l[a..];
    assert LStrip(s) == t && LStrip(l) == lt;
    SkipSpaceBackAlike(t, lt, |t|);
  }

  /** `s.startswith(prefix)` */
  predicate StartsWith(s: string, prefix: string) {
    |prefix| <= |s| && s[..|prefix|] == prefix
  }

  /** `needle in s` for strings */
  predicate Contains(s: string, needle: string) {
    exists i | 0 <= i <= |s| - |needle| :: OccursAt(s, needle, i)
  }

  predicate OccursAt(s: string, needle: string, i: nat) {
    i + |needle| <= |s| && s[i..i + |needle|] == needle
  }

  /** `s.isdigit()` (ASCII digits only). */
  predicate IsDigitString(s: string) {
    s != [] && forall i | 0 <= i < |s| :: IsDigit(s[i])
  }

  /** `int(s)` for a string of decimal digits. */
  function DecimalValue(s: string): nat
    requires forall i | 0 <= i < |s| :: IsDigit(s[i])
  {
    if s == [] then 0
    else
      var d := s[|s| - 1];
      assert IsDigit(d);
      10 * DecimalValue(s[..|s| - 1]) + (d as int - '0' as int)
  }

  /** `s.isupper()`: at least one cased character and no lower-case one. */
  predicate IsUpperString(s: string) {
    (exists i | 0 <= i < |s| :: IsUpperAscii(s[i])) && forall i | 0 <= i < |s| :: !IsLowerAscii(s[i])
  }

  /** `s[:n]` for `n >= 0` */
  function Prefix(s: string, n: nat): (r: string)
    ensures |r| == if n < |s| then n else |s|
    ensures r == s[..|r|]
  {
    if n < |s| then s[..n] else s
  }

  /** `sum(...)` over a sequence, through a measure on its elements. */
  function SumOf<T>(xs: seq<T>, f: T -> int): int {
    if xs == [] then 0 else SumOf(xs[..|xs| - 1], f) + f(xs[|xs| - 1])
  }

  /** `sum(1 for x in xs if p(x))` */
  function CountWhere<T>(xs: seq<T>, p: T -> bool): (n: nat)
    ensures n <= |xs|
    ensures n == 0 <== forall i | 0 <= i < |xs| :: !p(xs[i])
  {
    if xs == [] then 0 else CountWhere(xs[..|xs| - 1], p) + (if p(xs[|xs| - 1]) then 1 else 0)
  }

  /** Position of the first element satisfying `p` (`|xs|` when there is none). */
  function FirstWhere<T>(xs: seq<T>, p: T -> bool): (k: nat)
    ensures k <= |xs|
    ensures forall i | 0 <= i < k :: !p(xs[i])
    ensures k < |xs| ==> p(xs[k])
  {
    if xs == [] then 0
    else if p(xs[0]) then 0
    else 1 + FirstWhere(xs[1..], p)
  }

  /** No element occurs twice. */
  predicate Distinct<T(==)>(xs: seq<T>) {
    forall i, j | 0 <= i < j < |xs| :: xs[i] != xs[j]
  }

  /** `FirstWhere` is pinned down by a satisfying position with no earlier one. */
  lemma {:induction false} FirstWhereAt<T>(xs: seq<T>, p: T -> bool, k: nat)
    requires k < |xs| && p(xs[k])
    requires forall i | 0 <= i < k :: !p(xs[i])
    ensures FirstWhere(xs, p) == k
  {
  }

  /** When no element satisfies `p`, `FirstWhere` is the length. */
  lemma {:induction false} FirstWhereNone<T>(xs: seq<T>, p: T -> bool)
    requires forall i | 0 <= i < |xs| :: !p(xs[i])
    ensures FirstWhere(xs, p) == |xs|
  {
  }

  /** The keys of `xs` under `key`, in order. */
  function KeysBy<T>(xs: seq<T>, key: T -> string): (r: seq<string>)
    ensures |r| == |xs| && forall i | 0 <= i < |xs| :: r[i] == key(xs[i])
  {
    seq(|xs|, i requires 0 <= i < |xs| => key(xs[i]))
  }

  /**
   * Keep, in order, each element whose key is accepted and differs from the keys kept
   * before it. The kept keys are accepted and pairwise distinct.
   */
  function UniqueBy<T>(xs: seq<T>, key: T -> string, accept: string -> bool): (r: seq<T>)
    ensures |r| <= |xs|
    ensures forall i | 0 <= i < |r| :: accept(key(r[i]))
    ensures forall i, j | 0 <= i < j < |r| :: key(r[i]) != key(r[j])
  {
    if xs == [] then []
    else
      var kept := UniqueBy(xs[..|xs| - 1], key, accept);
      var x := xs[|xs| - 1];
      if accept(key(x)) && key(x) !in KeysBy(kept, key) then kept + [x] else kept
  }

  /** One step of `UniqueBy` over a growing prefix. */
  lemma {:induction false} UniqueByStep<T>(xs: seq<T>, i: nat, key: T -> string, accept: string -> bool)
    requires i < |xs|
    ensures var kept := UniqueBy(xs[..i], key, accept);
      UniqueBy(xs[..i + 1], key, accept)
      == if accept(key(xs[i])) && key(xs[i]) !in KeysBy(kept, key) then kept + [xs[i]] else kept
  {
    assert xs[..i + 1][..i] == xs[..i];
  }

  /** The keys of a list grown by one element. */
  lemma {:induction false} KeysByAppend<T>(xs: seq<T>, x: T, key: T -> string)
    ensures KeysBy(xs + [x], key) == KeysBy(xs, key) + [key(x)]
  {
  }

  /** Every accepted key of the input is the key of some kept element. */
  lemma {:induction false} UniqueByKeepsEveryKey<T>(xs: seq<T>, key: T -> string, accept: string -> bool)
    ensures forall i | 0 <= i < |xs| && accept(key(xs[i])) :: key(xs[i]) in KeysBy(UniqueBy(xs, key, accept), key)
  {
    if xs != [] {
      var init := xs[..|xs| - 1];
      UniqueByKeepsEveryKey(init, key, accept);
      var kept := UniqueBy(init, key, accept);
      var r := UniqueBy(xs, key, accept);
      assert forall m | 0 <= m < |kept| :: r[m] == kept[m];
      assert forall i | 0 <= i < |init| :: xs[i] == init[i];
      forall i | 0 <= i < |xs| && accept(key(xs[i])) ensures key(xs[i]) in KeysBy(r, key) {
        if key(xs[i]) in KeysBy(kept, key) {
          var m :| 0 <= m < |kept| && KeysBy(kept, key)[m] == key(xs[i]);
          assert KeysBy(r, key)[m] == key(xs[i]);
        } else {
          assert i == |xs| - 1;
          assert KeysBy(r, key)[|kept|] == key(xs[i]);
        }
      }
    }
  }

  /**
   * The kept elements are the first elements of their keys, in input order: each sits at
   * a position of the input with no earlier element of the same key, and the positions
   * increase.
   */
  lemma {:induction false} UniqueByKeepsFirstInOrder<T>(xs: seq<T>, key: T -> string, accept: string -> bool)
    returns (origin: seq<nat>)
    ensures |origin| == |UniqueBy(xs, key, accept)|
    ensures forall i | 0 <= i < |origin| :: origin[i] < |xs| && xs[origin[i]] == UniqueBy(xs, key, accept)[i]
    ensures forall i, j | 0 <= i < |origin| && 0 <= j < origin[i] :: key(xs[j]) != key(xs[origin[i]])
    ensures forall i, j | 0 <= i < j < |origin| :: origin[i] < origin[j]
  {
    if xs == [] {
      origin := [];
    } else {
      var init := xs[..|xs| - 1];
      var kept := UniqueBy(init, key, accept);
      origin := UniqueByKeepsFirstInOrder(init, key, accept);
      assert forall i | 0 <= i < |init| :: xs[i] == init[i];
      var x := xs[|xs| - 1];
      if accept(key(x)) && key(x) !in KeysBy(kept, key) {
        UniqueByKeepsEveryKey(init, key, accept);
        origin := origin + [|xs| - 1];
      }
    }
  }

  /** A list whose keys are accepted and pairwise distinct is kept whole. */
  lemma {:induction false} UniqueByOfUnique<T>(xs: seq<T>, key: T -> string, accept: string -> bool)
    requires forall i | 0 <= i < |xs| :: accept(key(xs[i]))
    requires forall i, j | 0 <= i < j < |xs| :: key(xs[i]) != key(xs[j])
    ensures UniqueBy(xs, key, accept) == xs
  {
    if xs != [] {
      var init := xs[..|xs| - 1];
      UniqueByOfUnique(init, key, accept);
      assert key(xs[|xs| - 1]) !in KeysBy(init, key);
      assert init + [xs[|xs| - 1]] == xs;
    }
  }

  /** `"".join(xs)` */
  function Concat(xs: seq<string>): (r: string) {
    if xs == [] then "" else xs[0] + Concat(xs[1..])
  }

  /** `sep.join(xs)` */
  function Join(sep: string, xs: seq<string>): string {
    if xs == [] then "" else if |xs| == 1 then xs[0] else xs[0] + sep + Join(sep, xs[1..])
  }

  /** Joining two non-empty lists is joining each and gluing with the separator. */
  lemma {:induction false} JoinAppend(sep: string, xs: seq<string>, ys: seq<string>)
    requires xs != [] && ys != []
    ensures Join(sep, xs + ys) == Join(sep, xs) + sep + Join(sep, ys)
  {
    if |xs| == 1 {
      assert xs + ys == [xs[0]] + ys;
      assert (xs + ys)[1..] == ys;
    } else {
      assert (xs + ys)[1..] == xs[1..] + ys;
      JoinAppend(sep, xs[1..], ys);
    }
  }

  lemma {:induction false} ConcatAppend(xs: seq<string>, ys: seq<string>)
    ensures Concat(xs + ys) == Concat(xs) + Concat(ys)
  {
    if xs == [] {
      assert xs + ys == ys;
    } else {
      assert (xs + ys)[1..] == xs[1..] + ys;
      ConcatAppend(xs[1..], ys);
    }
  }
}
