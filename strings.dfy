/**
 * The few operations on Python 2 byte strings that the generator relies on:
 * the character classes of `re` without flags, `startswith`/`endswith`/`in`,
 * `join`, `split`, `rstrip`, `replace(old, "")`, slicing with `[:-1]`,
 * `" " * n` and `str(n)`.
 */
module Strings {
  import opened Common

  /** `\s` of Python 2's `re` without flags: space, tab, newline, vertical tab, form feed, carriage return. */
  predicate IsSpace(c: char) {
    c == ' ' || '\t' <= c <= '\r'
  }

  /** `\w` of Python 2's `re` without flags: ASCII letters, digits and underscore. */
  predicate IsWordChar(c: char) {
    'a' <= c <= 'z' || 'A' <= c <= 'Z' || '0' <= c <= '9' || c == '_'
  }

  /** A string that `\w+` matches as a whole. */
  predicate IsWord(w: string) {
    |w| > 0 && forall i :: 0 <= i < |w| ==> IsWordChar(w[i])
  }

  /** Length of the longest run of `\s` characters starting at `i` (what a greedy `\s*` consumes). */
  function SpaceRun(s: string, i: nat): (n: nat)
    requires i <= |s|
    ensures i + n <= |s|
    ensures forall k :: i <= k < i + n ==> IsSpace(s[k])
    ensures i + n == |s| || !IsSpace(s[i + n])
    decreases |s| - i
  {
    if i < |s| && IsSpace(s[i]) then 1 + SpaceRun(s, i + 1) else 0
  }

  /** Length of the longest run of `\w` characters starting at `i` (what a greedy `\w+` consumes). */
  function WordRun(s: string, i: nat): (n: nat)
    requires i <= |s|
    ensures i + n <= |s|
    ensures forall k :: i <= k < i + n ==> IsWordChar(s[k])
    ensures i + n == |s| || !IsWordChar(s[i + n])
    decreases |s| - i
  {
    if i < |s| && IsWordChar(s[i]) then 1 + WordRun(s, i + 1) else 0
  }

  /** A run of `n` whitespace characters at `i` that stops there is exactly what `\s*` consumes. */
  lemma SpaceRunIs(s: string, i: nat, n: nat)
    requires i + n <= |s|
    requires forall k :: i <= k < i + n ==> IsSpace(s[k])
    requires i + n == |s| || !IsSpace(s[i + n])
    ensures SpaceRun(s, i) == n
    decreases n
  {
    if n > 0 {
      SpaceRunIs(s, i + 1, n - 1);
    }
  }

  /** A run of `n` word characters at `i` that stops there is exactly what `\w+` consumes. */
  lemma WordRunIs(s: string, i: nat, n: nat)
    requires i + n <= |s|
    requires forall k :: i <= k < i + n ==> IsWordChar(s[k])
    requires i + n == |s| || !IsWordChar(s[i + n])
    ensures WordRun(s, i) == n
    decreases n
  {
    if n > 0 {
      WordRunIs(s, i + 1, n - 1);
    }
  }

  predicate StartsWith(s: string, prefix: string) {
    |prefix| <= |s| && s[..|prefix|] == prefix
  }

  predicate EndsWith(s: string, suffix: string) {
    |suffix| <= |s| && s[|s| - |suffix|..] == suffix
  }

  /** `pat` occurs in `s` at index `i`. */
  predicate OccursAt(s: string, pat: string, i: nat) {
    i + |pat| <= |s| && s[i..i + |pat|] == pat
  }

  /** Python's `pat in s`. */
  predicate Contains(s: string, pat: string) {
    exists i: nat :: i <= |s| && OccursAt(s, pat, i)
  }

  /** The first index at or after `i` where `pat` occurs in `s`, as `str.find` computes it. */
  function FindFrom(s: string, pat: string, i: nat): (r: Option<nat>)
    ensures r.Some? ==> i <= r.value && OccursAt(s, pat, r.value)
    ensures r.Some? ==> forall k: nat :: i <= k < r.value ==> !OccursAt(s, pat, k)
    ensures r.None? ==> forall k: nat :: i <= k ==> !OccursAt(s, pat, k)
    decreases |s| - i
  {
    if |s| < i + |pat| then None
    else if OccursAt(s, pat, i) then Some(i)
    else FindFrom(s, pat, i + 1)
  }

  /** `sep.join(xs)`. */
  function Join(sep: string, xs: seq<string>): string
  {
    if |xs| == 0 then ""
    else if |xs| == 1 then xs[0]
    else xs[0] + sep + Join(sep, xs[1..])
  }

  /**
   * What a loop `for x in xs: s += x + sep` appends: every item followed by
   * the separator. Defined from the back, in the order the loop builds it.
   */
  function Trailing(xs: seq<string>, sep: string): string
  {
    if |xs| == 0 then "" else Trailing(xs[..|xs| - 1], sep) + xs[|xs| - 1] + sep
  }

  /** Python's `s[:-1]`: drops the last character, and leaves "" alone. */
  function DropLast(s: string): (r: string)
    ensures |s| > 0 ==> |r| == |s| - 1 && s == r + [s[|s| - 1]]
    ensures |s| == 0 ==> r == ""
  {
    if |s| == 0 then s else s[..|s| - 1]
  }

  /**
   * The two-step idiom of the generator, "append item and separator for every
   * item, then cut the last character": the text `prefix` followed by the items
   * joined with the separator, or, without items, `prefix` minus its last character.
   */
  function CommaList(prefix: string, items: seq<string>): string
  {
    if |items| == 0 then DropLast(prefix) else prefix + Join(",", items)
  }

  /** `s.split(c)` for a one-character separator. */
  function Split(s: string, c: char): (parts: seq<string>)
    ensures |parts| > 0
    decreases |s|
  {
    if |s| == 0 then [""]
    else if s[0] == c then [""] + Split(s[1..], c)
    else
      var rest := Split(s[1..], c);
      [[s[0]] + rest[0]] + rest[1..]
  }

  /** No part of a split holds the separator. */
  lemma {:induction false} SplitParts(s: string, c: char)
    ensures forall i :: 0 <= i < |Split(s, c)| ==> c !in Split(s, c)[i]
    decreases |s|
  {
    if |s| > 0 {
      var rest := Split(s[1..], c);
      SplitParts(s[1..], c);
      if s[0] == c {
        assert Split(s, c) == [""] + rest;
        forall i | 1 <= i < |Split(s, c)|
          ensures c !in Split(s, c)[i]
        {
          assert Split(s, c)[i] == rest[i - 1];
        }
      } else {
        var parts := Split(s, c);
        assert parts == [[s[0]] + rest[0]] + rest[1..];
        assert c !in rest[0];
        forall i | 1 <= i < |parts|
          ensures c !in parts[i]
        {
          assert parts[i] == rest[i];
        }
      }
    }
  }

  /** `s.rstrip()`: the string without its trailing whitespace. */
  function RStrip(s: string): (r: string)
    ensures |r| <= |s| && s[..|r|] == r
    ensures forall k :: |r| <= k < |s| ==> IsSpace(s[k])
    ensures |r| == 0 || !IsSpace(r[|r| - 1])
  {
    if |s| > 0 && IsSpace(s[|s| - 1]) then RStrip(s[..|s| - 1]) else s
  }

  /** `s.replace(pat, "")`: removes the occurrences of `pat` found scanning left to right. */
  function Erase(s: string, pat: string): (r: string)
    requires |pat| > 0
    ensures |r| <= |s|
    ensures (forall k :: 0 <= k < |s| ==> s[k] != pat[0]) ==> r == s
    decreases |s|
  {
    if |s| < |pat| then s
    else if s[..|pat|] == pat then Erase(s[|pat|..], pat)
    else [s[0]] + Erase(s[1..], pat)
  }

  /** `n` spaces: Python's `" " * n`. */
  function Spaces(n: nat): (r: string)
    ensures |r| == n && forall k :: 0 <= k < n ==> r[k] == ' '
  {
    seq(n, _ => ' ')
  }

  function DigitChar(d: nat): char
    requires d < 10
  {
    "0123456789"[d]
  }

  /** `str(n)` for a natural number. */
  function Decimal(n: nat): (r: string)
    ensures |r| > 0
    ensures forall k :: 0 <= k < |r| ==> '0' <= r[k] <= '9'
  {
    if n < 10 then [DigitChar(n)] else Decimal(n / 10) + [DigitChar(n % 10)]
  }

  /** `int(s)` for a string of decimal digits. */
  function ParseDecimal(s: string): nat
    requires forall k :: 0 <= k < |s| ==> '0' <= s[k] <= '9'
  {
    if |s| == 0 then 0
    else 10 * ParseDecimal(s[..|s| - 1]) + (s[|s| - 1] as int - '0' as int)
  }

  /** `int(str(n)) == n`. */
  lemma {:induction false} DecimalRoundTrip(n: nat)
    ensures ParseDecimal(Decimal(n)) == n
  {
    if n >= 10 {
      DecimalRoundTrip(n / 10);
      var s := Decimal(n);
      assert s[..|s| - 1] == Decimal(n / 10);
    }
  }

  /** With at least one item, the trailing-separator loop followed by `[:-1]` yields the joined items. */
  lemma {:induction false} TrailingJoin(xs: seq<string>, sep: string)
    requires |xs| > 0
    ensures Trailing(xs, sep) == Join(sep, xs) + sep
    decreases |xs|
  {
    if |xs| > 1 {
      var init := xs[..|xs| - 1];
      TrailingJoin(init, sep);
      JoinSnoc(init, xs[|xs| - 1], sep);
      assert init + [xs[|xs| - 1]] == xs;
    } else {
      assert xs[..0] == [];
    }
  }

  lemma {:induction false} JoinSnoc(xs: seq<string>, x: string, sep: string)
    requires |xs| > 0
    ensures Join(sep, xs + [x]) == Join(sep, xs) + sep + x
    decreases |xs|
  {
    if |xs| > 1 {
      JoinSnoc(xs[1..], x, sep);
      assert (xs + [x])[1..] == xs[1..] + [x];
    }
  }

  /** The generator's "append with separator, cut the last character" idiom computes `CommaList`. */
  lemma CutTrailing(prefix: string, xs: seq<string>)
    ensures DropLast(prefix + Trailing(xs, ",")) == CommaList(prefix, xs)
  {
    if |xs| > 0 {
      TrailingJoin(xs, ",");
      assert prefix + Trailing(xs, ",") == (prefix + Join(",", xs)) + ",";
    }
  }

  /** Splitting at the first separator. */
  lemma {:induction false} SplitAtFirst(a: string, c: char, b: string)
    requires c !in a
    ensures Split(a + [c] + b, c) == [a] + Split(b, c)
    decreases |a|
  {
    if |a| > 0 {
      SplitAtFirst(a[1..], c, b);
      assert (a + [c] + b)[1..] == a[1..] + [c] + b;
      assert [a[0]] + a[1..] == a;
    } else {
      assert (a + [c] + b)[1..] == b;
    }
  }

  /** A line without a newline, then a newline: the line is the first part of the split. */
  lemma SplitLine(a: string, rest: string)
    requires '\n' !in a
    ensures Split(a + "\n" + rest, '\n') == [a] + Split(rest, '\n')
  {
    SplitAtFirst(a, '\n', rest);
    assert a + "\n" + rest == a + ['\n'] + rest;
  }

  /** A character in neither the separator nor any item is not in the joined text. */
  lemma {:induction false} JoinLacks(sep: string, xs: seq<string>, c: char)
    requires c !in sep
    requires forall i :: 0 <= i < |xs| ==> c !in xs[i]
    ensures c !in Join(sep, xs)
    decreases |xs|
  {
    if |xs| > 1 {
      var tail := xs[1..];
      forall i | 0 <= i < |tail|
        ensures c !in tail[i]
      {
        assert tail[i] == xs[i + 1];
      }
      JoinLacks(sep, tail, c);
      assert c !in xs[0];
    } else if |xs| == 1 {
      assert c !in xs[0];
    }
  }

  /** Lines joined by newlines and closed by one, then more text: the lines come first in the split. */
  lemma {:induction false} SplitJoinThen(xs: seq<string>, rest: string)
    requires |xs| > 0
    requires forall i :: 0 <= i < |xs| ==> '\n' !in xs[i]
    ensures Split(Join("\n", xs) + "\n" + rest, '\n') == xs + Split(rest, '\n')
    decreases |xs|
  {
    assert '\n' !in xs[0];
    if |xs| == 1 {
      SplitLine(xs[0], rest);
    } else {
      var tail := xs[1..];
      forall i | 0 <= i < |tail|
        ensures '\n' !in tail[i]
      {
        assert tail[i] == xs[i + 1];
      }
      SplitJoinThen(tail, rest);
      var joined := Join("\n", tail);
      var after := joined + "\n" + rest;
      assert Join("\n", xs) == xs[0] + "\n" + joined;
      LineThen(xs[0], joined, rest);
      SplitLine(xs[0], after);
      AppendAssoc([xs[0]], tail, Split(rest, '\n'));
      assert [xs[0]] + tail == xs;
    }
  }

  /** Regrouping two lines and a rest, each line followed by a newline. */
  lemma LineThen(a: string, b: string, rest: string)
    ensures a + "\n" + b + "\n" + rest == a + "\n" + (b + "\n" + rest)
  {
  }

  /** Regrouping a concatenation of four strings. */
  lemma Regroup(a: string, b: string, c: string, d: string)
    ensures a + b + c + d == a + (b + c + d)
  {
  }

  /** The middle of three strings, and the characters on either side of its start. */
  lemma Middle(a: string, m: string, b: string)
    ensures (a + m + b)[|a|..|a| + |m|] == m
    ensures |m| > 0 ==> (a + m + b)[|a|] == m[0]
    ensures |a| > 0 ==> (a + m + b)[|a| - 1] == a[|a| - 1]
  {
  }

  /** Regrouping a concatenation of three sequences. */
  lemma AppendAssoc<T>(a: seq<T>, b: seq<T>, c: seq<T>)
    ensures a + b + c == a + (b + c)
  {
  }

  /** A string without the separator splits into itself alone. */
  lemma {:induction false} SplitNone(a: string, c: char)
    requires c !in a
    ensures Split(a, c) == [a]
    decreases |a|
  {
    if |a| > 0 {
      SplitNone(a[1..], c);
      assert [a[0]] + a[1..] == a;
    }
  }

  /**
   * `sep.join(xs).split(sep) == xs` when no item contains the separator:
   * the joined text holds exactly the items, in order.
   */
  lemma {:induction false} SplitJoin(xs: seq<string>, c: char)
    requires |xs| > 0
    requires forall i :: 0 <= i < |xs| ==> c !in xs[i]
    ensures Split(Join([c], xs), c) == xs
    decreases |xs|
  {
    if |xs| == 1 {
      SplitNone(xs[0], c);
    } else {
      var tail := xs[1..];
      assert Join([c], xs) == xs[0] + [c] + Join([c], tail);
      forall i | 0 <= i < |tail|
        ensures c !in tail[i]
      {
        assert tail[i] == xs[i + 1];
      }
      SplitJoin(tail, c);
      SplitAtFirst(xs[0], c, Join([c], tail));
      assert [xs[0]] + tail == xs;
    }
  }

  /** The first step of `replace`: skip an occurrence at the start, or keep the first character. */
  lemma EraseFirst(s: string, pat: string)
    requires 0 < |pat| <= |s|
    ensures s[..|pat|] == pat ==> Erase(s, pat) == Erase(s[|pat|..], pat)
    ensures s[..|pat|] != pat ==> Erase(s, pat) == [s[0]] + Erase(s[1..], pat)
  {
  }

  /** `replace` removes an occurrence as soon as the text before it holds no first character of the pattern. */
  lemma {:induction false} EraseSplice(a: string, pat: string, b: string)
    requires |pat| > 0
    requires forall k :: 0 <= k < |a| ==> a[k] != pat[0]
    ensures Erase(a + pat + b, pat) == a + Erase(b, pat)
    decreases |a|
  {
    var s := a + pat + b;
    EraseFirst(s, pat);
    if |a| == 0 {
      assert s[..|pat|] == pat && s[|pat|..] == b;
    } else {
      assert s[..|pat|][0] == a[0];
      var rest := a[1..];
      assert s[1..] == rest + pat + b;
      forall k | 0 <= k < |rest|
        ensures rest[k] != pat[0]
      {
        assert rest[k] == a[k + 1];
      }
      EraseSplice(rest, pat, b);
      AppendAssoc([a[0]], rest, Erase(b, pat));
      assert [a[0]] + rest == a;
    }
  }
}
