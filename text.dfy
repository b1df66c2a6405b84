/**
 * String helpers shared by every plugin: the parts of Python's `str` methods
 * (`strip`, `lower`, `split`, `startswith`, `replace`, `in`) that the plugins
 * rely on, written over `seq<char>`. Whitespace and case are ASCII only.
 */
module Text {
  import opened Wrappers

  /**
   * The ASCII characters that `str.strip()` removes: space, tab, line feed,
   * carriage return, vertical tab, form feed and the four separators
   * U+001C to U+001F.
   */
  predicate IsSpace(c: char)
  {
    c == ' ' || c == '\t' || c == '\n' || c == '\r' || c == '\U{000B}' || c == '\U{000C}'
    || ('\U{001C}' <= c <= '\U{001F}')
  }

  function TrimLeft(s: string): (r: string)
    ensures |r| <= |s| && r == s[|s| - |r|..]
    ensures r == [] || !IsSpace(r[0])
    ensures forall i :: 0 <= i < |s| - |r| ==> IsSpace(s[i])
  {
    if |s| > 0 && IsSpace(s[0]) then
      var r := TrimLeft(s[1..]);
      assert forall i :: 1 <= i < |s| - |r| ==> s[i] == s[1..][i - 1];
      r
    else s
  }

  function TrimRight(s: string): (r: string)
    ensures |r| <= |s| && r == s[..|r|]
    ensures r == [] || !IsSpace(r[|r| - 1])
    ensures forall i :: |r| <= i < |s| ==> IsSpace(s[i])
  {
    if |s| > 0 && IsSpace(s[|s| - 1]) then TrimRight(s[..|s| - 1]) else s
  }

  /** `s.strip()`: drop leading and trailing whitespace. */
  function Strip(s: string): (r: string)
    ensures |r| <= |s|
    ensures r == [] || (!IsSpace(r[0]) && !IsSpace(r[|r| - 1]))
  {
    TrimRight(TrimLeft(s))
  }

  /** The stripped string is a slice of the input, so it holds no character the input lacks. */
  lemma StripSlice(s: string)
    ensures forall i :: 0 <= i < |Strip(s)| ==> Strip(s)[i] == s[|s| - |TrimLeft(s)| + i]
  {
    var l := TrimLeft(s);
    var r := TrimRight(l);
    var k := |s| - |l|;
    assert l == s[k..];
    forall i | 0 <= i < |r| ensures r[i] == s[k + i] {
      assert r[i] == l[i] == s[k..][i];
    }
  }

  /** A string with no whitespace at either end is its own strip. */
  lemma StripTrimmed(s: string)
    requires s == [] || (!IsSpace(s[0]) && !IsSpace(s[|s| - 1]))
    ensures Strip(s) == s
  {
  }

  lemma StripIdempotent(s: string)
    ensures Strip(Strip(s)) == Strip(s)
  {
    StripTrimmed(Strip(s));
  }

  /** `strip()` yields the empty string exactly when the input is all whitespace. */
  lemma StripEmptyIff(s: string)
    ensures Strip(s) == [] <==> forall i :: 0 <= i < |s| ==> IsSpace(s[i])
  {
    var l := TrimLeft(s);
    if l != [] {
      assert !IsSpace(l[0]);
      assert TrimRight(l) != [];
      assert !IsSpace(s[|s| - |l|]);
    }
  }

  function LowerChar(c: char): (d: char)
    ensures 'A' <= c <= 'Z' ==> 'a' <= d <= 'z'
    ensures !('A' <= c <= 'Z') ==> d == c
  {
    if 'A' <= c <= 'Z' then (c as int - 'A' as int + 'a' as int) as char else c
  }

  /** `s.lower()` on ASCII letters. */
  function Lower(s: string): (r: string)
    ensures |r| == |s|
    ensures forall i :: 0 <= i < |s| ==> r[i] == LowerChar(s[i])
  {
    if s == [] then [] else [LowerChar(s[0])] + Lower(s[1..])
  }

  lemma LowerIdempotent(s: string)
    ensures Lower(Lower(s)) == Lower(s)
  {
    assert forall i :: 0 <= i < |s| ==> LowerChar(LowerChar(s[i])) == LowerChar(s[i]);
  }

  predicate StartsWith(s: string, prefix: string)
  {
    |prefix| <= |s| && s[..|prefix|] == prefix
  }

  predicate EndsWith(s: string, suffix: string)
  {
    |suffix| <= |s| && s[|s| - |suffix|..] == suffix
  }

  /** `needle in s` for strings: `needle` occurs at some position. */
  predicate Contains(s: string, needle: string)
  {
    exists i | 0 <= i <= |s| :: OccursAt(s, needle, i)
  }

  predicate OccursAt(s: string, needle: string, i: int)
  {
    0 <= i && i + |needle| <= |s| && s[i..i + |needle|] == needle
  }

  /** Every character of `s` lies outside `seps`. */
  predicate Avoids(s: string, seps: set<char>)
  {
    forall i :: 0 <= i < |s| ==> s[i] !in seps
  }

  /**
   * Splitting on any character of `seps`, as `s.split(c)` does for one
   * separator: empty pieces are kept and there is always at least one piece.
   */
  function SplitAny(s: string, seps: set<char>): (parts: seq<string>)
    ensures |parts| >= 1
    ensures forall k :: 0 <= k < |parts| ==> Avoids(parts[k], seps)
  {
    if s == [] then [""]
    else
      var rest := SplitAny(s[1..], seps);
      if s[0] in seps then [""] + rest
      else [[s[0]] + rest[0]] + rest[1..]
  }

  /** `sep.join(parts)`. */
  function Join(parts: seq<string>, sep: string): string
  {
    if |parts| == 0 then ""
    else if |parts| == 1 then parts[0]
    else parts[0] + sep + Join(parts[1..], sep)
  }

  /** Joining the pieces with the one separator gives the input back. */
  lemma {:induction false} SplitAnyJoin(s: string, c: char)
    ensures Join(SplitAny(s, {c}), [c]) == s
    decreases |s|
  {
    if s != [] {
      var rest := SplitAny(s[1..], {c});
      SplitAnyJoin(s[1..], c);
      if s[0] == c {
        assert SplitAny(s, {c}) == [""] + rest;
        assert ([""] + rest)[1..] == rest;
      } else {
        assert SplitAny(s, {c}) == [[s[0]] + rest[0]] + rest[1..];
        JoinExtendFirst([s[0]], rest, [c]);
      }
    }
  }

  /** Prepending to the first piece prepends to the joined string. */
  lemma JoinExtendFirst(x: string, parts: seq<string>, sep: string)
    requires |parts| >= 1
    ensures Join([x + parts[0]] + parts[1..], sep) == x + Join(parts, sep)
  {
    var q := [x + parts[0]] + parts[1..];
    if |parts| > 1 {
      assert q[1..] == parts[1..];
    }
  }

  /** A string free of the separator is a single piece. */
  lemma {:induction false} SplitAnyAvoids(a: string, c: char)
    requires Avoids(a, {c})
    ensures SplitAny(a, {c}) == [a]
    decreases |a|
  {
    if a != [] {
      SplitAnyAvoids(a[1..], c);
      assert [a[0]] + a[1..] == a;
    }
  }

  /** A piece free of the separator, then the separator: the piece comes out whole. */
  lemma {:induction false} SplitAnyAfter(a: string, c: char, rest: string)
    requires Avoids(a, {c})
    ensures SplitAny(a + [c] + rest, {c}) == [a] + SplitAny(rest, {c})
    decreases |a|
  {
    var s := a + [c] + rest;
    if a == [] {
      assert s == [c] + rest && s[1..] == rest;
    } else {
      assert s[0] == a[0] && s[1..] == a[1..] + [c] + rest;
      SplitAnyAfter(a[1..], c, rest);
      assert [a[0]] + a[1..] == a;
    }
  }

  /** Splitting a join of separator-free pieces gives the pieces back. */
  lemma {:induction false} JoinSplitAny(parts: seq<string>, c: char)
    requires |parts| >= 1
    requires forall k :: 0 <= k < |parts| ==> Avoids(parts[k], {c})
    ensures SplitAny(Join(parts, [c]), {c}) == parts
    decreases |parts|
  {
    if |parts| == 1 {
      SplitAnyAvoids(parts[0], c);
    } else {
      JoinSplitAny(parts[1..], c);
      SplitAnyAfter(parts[0], c, Join(parts[1..], [c]));
      assert [parts[0]] + parts[1..] == parts;
    }
  }

  /**
   * `s.split(sep)` for a non-empty separator string: occurrences are found
   * left to right and do not overlap.
   */
  function SplitOn(s: string, sep: string): (parts: seq<string>)
    requires |sep| > 0
    ensures |parts| >= 1
    decreases |s|
  {
    if |s| < |sep| then [s]
    else if s[..|sep|] == sep then [""] + SplitOn(s[|sep|..], sep)
    else
      var rest := SplitOn(s[1..], sep);
      [[s[0]] + rest[0]] + rest[1..]
  }

  lemma {:induction false} SplitOnJoin(s: string, sep: string)
    requires |sep| > 0
    ensures Join(SplitOn(s, sep), sep) == s
    decreases |s|
  {
    if |s| < |sep| {
      assert SplitOn(s, sep) == [s];
    } else if s[..|sep|] == sep {
      var rest := SplitOn(s[|sep|..], sep);
      SplitOnJoin(s[|sep|..], sep);
      assert SplitOn(s, sep) == [""] + rest;
      assert ([""] + rest)[1..] == rest;
      assert Join([""] + rest, sep) == "" + sep + Join(rest, sep);
      assert s == s[..|sep|] + s[|sep|..];
    } else {
      var rest := SplitOn(s[1..], sep);
      SplitOnJoin(s[1..], sep);
      assert SplitOn(s, sep) == [[s[0]] + rest[0]] + rest[1..];
      JoinExtendFirst([s[0]], rest, sep);
      assert s == [s[0]] + s[1..];
    }
  }

  /** `s.replace(target, with)`: every non-overlapping occurrence, left to right. */
  function ReplaceAll(s: string, target: string, with: string): string
    requires |target| > 0
    decreases |s|
  {
    if |s| < |target| then s
    else if s[..|target|] == target then with + ReplaceAll(s[|target|..], target, with)
    else [s[0]] + ReplaceAll(s[1..], target, with)
  }

  /** Replacing a string by itself changes nothing. */
  lemma {:induction false} ReplaceSelf(s: string, target: string)
    requires |target| > 0
    ensures ReplaceAll(s, target, target) == s
    decreases |s|
  {
    if |s| >= |target| {
      if s[..|target|] == target {
        ReplaceSelf(s[|target|..], target);
        assert target + s[|target|..] == s;
      } else {
        ReplaceSelf(s[1..], target);
        assert [s[0]] + s[1..] == s;
      }
    }
  }

  /** Replacing a string that does not occur leaves the input unchanged. */
  lemma {:induction false} ReplaceAbsent(s: string, target: string, with: string)
    requires |target| > 0 && !Contains(s, target)
    ensures ReplaceAll(s, target, with) == s
    decreases |s|
  {
    if |s| >= |target| {
      assert s[0..|target|] == s[..|target|];
      assert !OccursAt(s, target, 0);
      assert !Contains(s[1..], target) by {
        if Contains(s[1..], target) {
          var i :| 0 <= i <= |s[1..]| && OccursAt(s[1..], target, i);
          assert 0 <= i && i + |target| <= |s| - 1;
          assert s[i + 1..i + 1 + |target|] == s[1..][i..i + |target|];
          assert OccursAt(s, target, i + 1);
        }
      }
      ReplaceAbsent(s[1..], target, with);
    }
  }

  /** `[x.strip() for x in items if x.strip()]`. */
  function StrippedNonBlank(items: seq<string>): (r: seq<string>)
    ensures |r| <= |items|
    ensures forall k :: 0 <= k < |r| ==> r[k] != [] && Strip(r[k]) == r[k]
  {
    if items == [] then []
    else
      var rest := StrippedNonBlank(items[1..]);
      var p := Strip(items[0]);
      if p == [] then rest
      else
        StripIdempotent(items[0]);
        [p] + rest
  }

  /**
   * The order is kept: the items of a concatenation are those of its two
   * halves, one after the other. With `StrippedNonBlankOne` this fixes
   * the result item by item.
   */
  lemma {:induction false} StrippedNonBlankAppend(a: seq<string>, b: seq<string>)
    ensures StrippedNonBlank(a + b) == StrippedNonBlank(a) + StrippedNonBlank(b)
    decreases |a|
  {
    if a != [] {
      var ab := a + b;
      var head := if Strip(a[0]) == [] then [] else [Strip(a[0])];
      assert ab[1..] == a[1..] + b && ab[0] == a[0];
      StrippedNonBlankAppend(a[1..], b);
      assert StrippedNonBlank(ab) == head + StrippedNonBlank(ab[1..]);
      assert StrippedNonBlank(a) == head + StrippedNonBlank(a[1..]);
    } else {
      assert a + b == b;
    }
  }

  /** Every item that is not blank is kept, stripped. */
  lemma {:induction false} StrippedNonBlankComplete(items: seq<string>)
    ensures forall k :: 0 <= k < |items| && Strip(items[k]) != [] ==> Strip(items[k]) in StrippedNonBlank(items)
  {
    if items != [] {
      var rest := items[1..];
      StrippedNonBlankComplete(rest);
      var r := StrippedNonBlank(items);
      var head := if Strip(items[0]) == [] then [] else [Strip(items[0])];
      assert r == head + StrippedNonBlank(rest);
      forall k | 1 <= k < |items| && Strip(items[k]) != []
        ensures Strip(items[k]) in r
      {
        assert items[k] == rest[k - 1];
      }
    }
  }

  /** One item gives itself stripped, or nothing when blank. */
  lemma StrippedNonBlankOne(x: string)
    ensures StrippedNonBlank([x]) == if Strip(x) == [] then [] else [Strip(x)]
  {
    assert [x][1..] == [];
  }

  /** A list whose items are already stripped and non-blank reads back unchanged. */
  lemma {:induction false} StrippedNonBlankKeeps(items: seq<string>)
    requires forall k :: 0 <= k < |items| ==> items[k] != [] && Strip(items[k]) == items[k]
    ensures StrippedNonBlank(items) == items
  {
    if items != [] {
      var rest := items[1..];
      forall k | 0 <= k < |rest| ensures rest[k] != [] && Strip(rest[k]) == rest[k] {
        assert rest[k] == items[k + 1];
      }
      StrippedNonBlankKeeps(rest);
      assert Strip(items[0]) == items[0] && items[0] != [];
      assert StrippedNonBlank(items) == [items[0]] + StrippedNonBlank(rest);
      assert [items[0]] + rest == items;
    }
  }

  /** `s[:n]` for a non-negative `n`. */
  function Take(s: string, n: nat): (r: string)
    ensures |r| == if |s| < n then |s| else n
    ensures r == s[..|r|]
  {
    if |s| <= n then s else s[..n]
  }

  predicate IsDigit(c: char) { '0' <= c <= '9' }

  function DigitValue(c: char): nat
    requires IsDigit(c)
  {
    c as int - '0' as int
  }

  function DigitsValue(s: string): nat
    requires forall i :: 0 <= i < |s| ==> IsDigit(s[i])
    decreases |s|
  {
    if s == [] then 0 else DigitsValue(s[..|s| - 1]) * 10 + DigitValue(s[|s| - 1])
  }

  /**
   * The digits of a literal that uses `_` separators: it starts and ends
   * with a digit, and every other character is a digit or a single `_`
   * between two digits.
   */
  predicate Underscored(t: string)
  {
    && t != [] && IsDigit(t[0]) && IsDigit(t[|t| - 1])
    && (forall i :: 0 <= i < |t| ==> IsDigit(t[i]) || t[i] == '_')
    && (forall i :: 0 <= i < |t| - 1 ==> !DoubleSeparator(t, i))
  }

  /** Two `_` in a row at `i`. */
  predicate DoubleSeparator(t: string, i: int)
    requires 0 <= i < |t| - 1
  {
    t[i] == '_' && t[i + 1] == '_'
  }

  /** The value of digits with `_` separators: the separators are skipped. */
  function SeparatedValue(t: string): nat
    requires forall i :: 0 <= i < |t| ==> IsDigit(t[i]) || t[i] == '_'
    decreases |t|
  {
    if t == [] then 0
    else if t[|t| - 1] == '_' then SeparatedValue(t[..|t| - 1])
    else SeparatedValue(t[..|t| - 1]) * 10 + DigitValue(t[|t| - 1])
  }

  /**
   * `int(s)` for a base-10 literal: surrounding whitespace, an optional sign
   * and at least one ASCII digit, with single `_` separators allowed between
   * digits; anything else is `None` (a `ValueError`).
   */
  function ParseInt(s: string): (r: Option<int>)
    ensures r.Some? ==> Strip(s) != []
  {
    ParseStripped(Strip(s))
  }

  /** `int(t)` once the surrounding whitespace is gone. */
  function ParseStripped(t: string): (r: Option<int>)
    ensures r.Some? ==> t != []
  {
    if t == [] then None
    else
      var neg := t[0] == '-';
      var body := if t[0] == '-' || t[0] == '+' then t[1..] else t;
      if Underscored(body) then
        Some(if neg then -(SeparatedValue(body) as int) else SeparatedValue(body))
      else None
  }

  /** `int(s.strip())` is `int(s)`: the whitespace is dropped either way. */
  lemma ParseIntStripped(s: string)
    ensures ParseInt(Strip(s)) == ParseInt(s)
  {
    StripIdempotent(s);
  }

  /** The decimal text of a natural number, the inverse of `DigitsValue`. */
  function NatToDigits(n: nat): (s: string)
    ensures s != [] && forall i :: 0 <= i < |s| ==> IsDigit(s[i])
    ensures DigitsValue(s) == n
    decreases n
  {
    if n < 10 then [(n + '0' as int) as char]
    else
      var p := NatToDigits(n / 10);
      var s := p + [((n % 10) + '0' as int) as char];
      assert s[..|s| - 1] == p;
      s
  }

  /** `str(n)` for an integer. */
  function IntToString(n: int): (s: string)
    ensures s != []
  {
    if n < 0 then "-" + NatToDigits(-n) else NatToDigits(n)
  }

  /** `int(str(n)) == n`. */
  lemma IntToStringRoundTrip(n: int)
    ensures ParseInt(IntToString(n)) == Some(n)
  {
    var s := IntToString(n);
    if n < 0 {
      var d := NatToDigits(-n);
      assert s == ['-'] + d && s[1..] == d;
      assert !IsSpace(s[0]) && !IsSpace(s[|s| - 1]) by {
        assert IsDigit(d[|d| - 1]) && s[|s| - 1] == d[|d| - 1];
      }
      StripTrimmed(s);
      DigitsUnderscored(d);
      assert ParseStripped(s) == Some(-(SeparatedValue(d) as int));
    } else {
      DigitsParse(s);
    }
  }

  /** `int("1_0") == int("10")`: one `_` between two digit runs is ignored. */
  lemma UnderscoreIgnored(a: string, b: string)
    requires a != [] && b != []
    requires forall i :: 0 <= i < |a| ==> IsDigit(a[i])
    requires forall i :: 0 <= i < |b| ==> IsDigit(b[i])
    ensures ParseInt(a + "_" + b) == ParseInt(a + b) == Some(DigitsValue(a + b))
  {
    SeparatedParses(a, b);
    SeparatorSkipped(a, b);
    SeparatedDigits(a + b);
    DigitsParse(a + b);
  }

  /** A run of digits parses to its value. */
  lemma DigitsParse(v: string)
    requires v != [] && forall i :: 0 <= i < |v| ==> IsDigit(v[i])
    ensures ParseInt(v) == Some(DigitsValue(v))
  {
    ParseTrimmed(v);
    DigitsParseStripped(v);
  }

  lemma DigitsParseStripped(v: string)
    requires v != [] && forall i :: 0 <= i < |v| ==> IsDigit(v[i])
    ensures ParseStripped(v) == Some(DigitsValue(v))
  {
    DigitsUnderscored(v);
    SeparatedParseStripped(v);
  }

  /** Plain digits are a literal without separators, with the same value. */
  lemma DigitsUnderscored(v: string)
    requires v != [] && forall i :: 0 <= i < |v| ==> IsDigit(v[i])
    ensures Underscored(v) && SeparatedValue(v) == DigitsValue(v)
  {
    assert IsDigit(v[0]) && IsDigit(v[|v| - 1]);
    forall i | 0 <= i < |v| - 1 ensures !DoubleSeparator(v, i) {
      assert IsDigit(v[i]);
    }
    SeparatedDigits(v);
  }

  /** Text that starts and ends with a digit is parsed as it stands. */
  lemma ParseTrimmed(t: string)
    requires t != [] && IsDigit(t[0]) && IsDigit(t[|t| - 1])
    ensures ParseInt(t) == ParseStripped(t)
  {
    StripTrimmed(t);
  }

  /** Without separators the two readings of digits agree. */
  lemma {:induction false} SeparatedDigits(t: string)
    requires forall i :: 0 <= i < |t| ==> IsDigit(t[i])
    ensures SeparatedValue(t) == DigitsValue(t)
    decreases |t|
  {
    if t != [] {
      SeparatedDigits(t[..|t| - 1]);
    }
  }

  /** The `_` between `a` and `b` contributes nothing. */
  lemma {:induction false} SeparatorSkipped(a: string, b: string)
    requires forall i :: 0 <= i < |a| ==> IsDigit(a[i])
    requires forall i :: 0 <= i < |b| ==> IsDigit(b[i])
    ensures SeparatedValue(a + "_" + b) == SeparatedValue(a + b)
    decreases |b|
  {
    var u := a + "_" + b;
    var v := a + b;
    if b == [] {
      assert u[..|u| - 1] == a == v;
    } else {
      SeparatorSkipped(a, b[..|b| - 1]);
      assert u[..|u| - 1] == a + "_" + b[..|b| - 1];
      assert v[..|v| - 1] == a + b[..|b| - 1];
    }
  }

  /** Two digit runs joined by `_` parse to the value of the whole. */
  lemma SeparatedParses(a: string, b: string)
    requires a != [] && b != []
    requires forall i :: 0 <= i < |a| ==> IsDigit(a[i])
    requires forall i :: 0 <= i < |b| ==> IsDigit(b[i])
    ensures ParseInt(a + "_" + b) == Some(SeparatedValue(a + "_" + b))
  {
    var u := a + "_" + b;
    assert u[0] == a[0] && u[|u| - 1] == b[|b| - 1];
    ParseTrimmed(u);
    SeparatedUnderscored(a, b);
    SeparatedParseStripped(u);
  }

  lemma SeparatedParseStripped(u: string)
    requires Underscored(u)
    ensures ParseStripped(u) == Some(SeparatedValue(u))
  {
    assert IsDigit(u[0]);
  }

  lemma SeparatedUnderscored(a: string, b: string)
    requires a != [] && b != []
    requires forall i :: 0 <= i < |a| ==> IsDigit(a[i])
    requires forall i :: 0 <= i < |b| ==> IsDigit(b[i])
    ensures Underscored(a + "_" + b)
  {
    var u := a + "_" + b;
    assert u[0] == a[0] && u[|u| - 1] == b[|b| - 1];
    forall i | 0 <= i < |u|
      ensures IsDigit(u[i]) || u[i] == '_'
    {
      if i < |a| {
        assert u[i] == a[i];
      } else if i > |a| {
        assert u[i] == b[i - |a| - 1];
      }
    }
    forall i | 0 <= i < |u| - 1
      ensures !DoubleSeparator(u, i)
    {
      if i < |a| {
        assert u[i] == a[i];
      } else {
        assert u[i + 1] == b[i - |a|];
      }
    }
  }
}
