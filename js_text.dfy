/**
 * The pieces of JavaScript's string library that the search form relies on:
 * `String.prototype.trim`, `String.prototype.split` with a one-character
 * separator, and the decimal text of an integer (what a template literal
 * such as `${response.status}` produces).
 */
module JsText {

  /* ---------------------------------------------------------------------
   * trim
   * ------------------------------------------------------------------- */

  /**
   * The characters `trim` removes: ECMAScript's WhiteSpace (TAB, VT, FF,
   * ZWNBSP and every space separator of category Zs) and LineTerminator
   * (LF, CR, LS, PS).
   */
  predicate IsJsSpace(c: char) {
    var n := c as int;
    n == 0x09 || n == 0x0A || n == 0x0B || n == 0x0C || n == 0x0D ||
    n == 0x20 || n == 0xA0 || n == 0x1680 || (0x2000 <= n <= 0x200A) ||
    n == 0x2028 || n == 0x2029 || n == 0x202F || n == 0x205F ||
    n == 0x3000 || n == 0xFEFF
  }

  ghost predicate AllSpace(s: string) {
    forall i :: 0 <= i < |s| ==> IsJsSpace(s[i])
  }

  /** Drops the leading white space: what remains is a suffix of `s`. */
  function TrimStart(s: string): (r: string)
    ensures |r| <= |s| && r == s[|s| - |r|..]
    ensures AllSpace(s[..|s| - |r|])
    ensures r == [] || !IsJsSpace(r[0])
    decreases |s|
  {
    if |s| > 0 && IsJsSpace(s[0]) then TrimStart(s[1..]) else s
  }

  /** Drops the trailing white space: what remains is a prefix of `s`. */
  function TrimEnd(s: string): (r: string)
    ensures |r| <= |s| && r == s[..|r|]
    ensures AllSpace(s[|r|..])
    ensures r == [] || !IsJsSpace(r[|r| - 1])
    decreases |s|
  {
    if |s| > 0 && IsJsSpace(s[|s| - 1]) then TrimEnd(s[..|s| - 1]) else s
  }

  /** `s.trim()`. */
  function Trim(s: string): (r: string)
    ensures |r| <= |s|
    ensures r == [] || (!IsJsSpace(r[0]) && !IsJsSpace(r[|r| - 1]))
  {
    TrimEnd(TrimStart(s))
  }

  lemma {:induction false} TrimStartSkips(pre: string, rest: string)
    requires AllSpace(pre)
    requires rest == [] || !IsJsSpace(rest[0])
    ensures TrimStart(pre + rest) == rest
    decreases |pre|
  {
    if pre != [] {
      assert (pre + rest)[1..] == pre[1..] + rest;
      TrimStartSkips(pre[1..], rest);
    } else {
      assert pre + rest == rest;
    }
  }

  lemma {:induction false} TrimEndSkips(rest: string, post: string)
    requires AllSpace(post)
    requires rest == [] || !IsJsSpace(rest[|rest| - 1])
    ensures TrimEnd(rest + post) == rest
    decreases |post|
  {
    if post != [] {
      var s := rest + post;
      assert s[..|s| - 1] == rest + post[..|post| - 1];
      TrimEndSkips(rest, post[..|post| - 1]);
    } else {
      assert rest + post == rest;
    }
  }

  /**
   * An independent description of `trim`: whatever surrounds a core that
   * neither starts nor ends with white space, if it is all white space, is
   * exactly what `trim` removes.
   */
  lemma TrimRemovesSurroundingSpace(pre: string, core: string, post: string)
    requires AllSpace(pre) && AllSpace(post)
    requires core == [] || (!IsJsSpace(core[0]) && !IsJsSpace(core[|core| - 1]))
    ensures Trim(pre + core + post) == core
  {
    if core == [] {
      assert pre + core + post == (pre + post) + [];
      assert AllSpace(pre + post) by {
        forall i | 0 <= i < |pre + post| ensures IsJsSpace((pre + post)[i]) {
          if i >= |pre| { assert (pre + post)[i] == post[i - |pre|]; }
        }
      }
      TrimStartSkips(pre + post, []);
    } else {
      assert pre + core + post == pre + (core + post);
      TrimStartSkips(pre, core + post);
      TrimEndSkips(core, post);
    }
  }

  /** `trim` yields the empty string exactly for all-white-space input. */
  lemma TrimEmptyIffAllSpace(s: string)
    ensures Trim(s) == [] <==> AllSpace(s)
  {
    if AllSpace(s) {
      assert s == s + [] + [];
      TrimRemovesSurroundingSpace(s, [], []);
    }
    if Trim(s) == [] {
      var t := TrimStart(s);
      assert t[|TrimEnd(t)|..] == t;
      assert t == [];
      assert s[..|s| - |t|] == s;
    }
  }

  /** A string with no white space at either end is its own trim. */
  lemma TrimKeepsTrimmed(s: string)
    requires s == [] || (!IsJsSpace(s[0]) && !IsJsSpace(s[|s| - 1]))
    ensures Trim(s) == s
  {
    assert s == [] + s + [];
    TrimRemovesSurroundingSpace([], s, []);
  }

  /** `trim` is idempotent. */
  lemma TrimIdempotent(s: string)
    ensures Trim(Trim(s)) == Trim(s)
  {
    TrimKeepsTrimmed(Trim(s));
  }

  /* ---------------------------------------------------------------------
   * split around a one-character separator
   * ------------------------------------------------------------------- */

  /**
   * `s.split(sep)`: the maximal runs of `s` between separators, in order.
   * An empty string yields one empty part; a separator at either end
   * yields an empty part there.
   */
  function Split(s: string, sep: char): (parts: seq<string>)
    ensures |parts| >= 1
    ensures forall k :: 0 <= k < |parts| ==> sep !in parts[k]
    decreases |s|
  {
    if s == [] then [[]]
    else if s[0] == sep then [[]] + Split(s[1..], sep)
    else
      var rest := Split(s[1..], sep);
      [[s[0]] + rest[0]] + rest[1..]
  }

  /** `parts.join(sep)`, the inverse of `Split`. */
  function Join(parts: seq<string>, sep: char): string
    requires |parts| >= 1
    decreases |parts|
  {
    if |parts| == 1 then parts[0] else parts[0] + [sep] + Join(parts[1..], sep)
  }

  /** Joining the parts back with the separator restores the input. */
  lemma {:induction false} JoinSplit(s: string, sep: char)
    ensures Join(Split(s, sep), sep) == s
    decreases |s|
  {
    if s == [] {
    } else if s[0] == sep {
      JoinSplit(s[1..], sep);
      var parts := Split(s, sep);
      assert parts[1..] == Split(s[1..], sep);
      assert s == [] + [sep] + s[1..];
    } else {
      JoinSplit(s[1..], sep);
      var rest := Split(s[1..], sep);
      var parts := Split(s, sep);
      assert parts[1..] == rest[1..];
      if |rest| == 1 {
        assert s == [s[0]] + rest[0];
      } else {
        assert Join(rest, sep) == rest[0] + [sep] + Join(rest[1..], sep);
        assert s == [s[0]] + s[1..];
      }
    }
  }

  lemma {:induction false} SplitWithoutSeparator(a: string, sep: char)
    requires sep !in a
    ensures Split(a, sep) == [a]
    decreases |a|
  {
    if a != [] {
      assert a[0] in a;
      assert forall c :: c in a[1..] ==> c in a;
      SplitWithoutSeparator(a[1..], sep);
      assert a == [a[0]] + a[1..];
    }
  }

  lemma {:induction false} SplitAfterSeparator(a: string, t: string, sep: char)
    requires sep !in a
    ensures Split(a + [sep] + t, sep) == [a] + Split(t, sep)
    decreases |a|
  {
    var s := a + [sep] + t;
    if a == [] {
      assert s[1..] == t;
    } else {
      assert a[0] in a;
      assert forall c :: c in a[1..] ==> c in a;
      assert s[1..] == a[1..] + [sep] + t;
      SplitAfterSeparator(a[1..], t, sep);
      assert a == [a[0]] + a[1..];
    }
  }

  /** Splitting a joined list of separator-free parts gives the parts back. */
  lemma {:induction false} SplitJoin(parts: seq<string>, sep: char)
    requires |parts| >= 1
    requires forall k :: 0 <= k < |parts| ==> sep !in parts[k]
    ensures Split(Join(parts, sep), sep) == parts
    decreases |parts|
  {
    if |parts| == 1 {
      SplitWithoutSeparator(parts[0], sep);
    } else {
      SplitJoin(parts[1..], sep);
      SplitAfterSeparator(parts[0], Join(parts[1..], sep), sep);
      assert parts == [parts[0]] + parts[1..];
    }
  }

  /** The two-part case the Riot-ID parser and the URL reader depend on. */
  lemma SplitTwo(a: string, b: string, sep: char)
    requires sep !in a && sep !in b
    ensures Split(a + [sep] + b, sep) == [a, b]
  {
    SplitJoin([a, b], sep);
    assert Join([a, b], sep) == a + [sep] + b;
  }

  lemma SplitThree(a: string, b: string, c: string, sep: char)
    requires sep !in a && sep !in b && sep !in c
    ensures Split(a + [sep] + b + [sep] + c, sep) == [a, b, c]
  {
    SplitTwo(b, c, sep);
    SplitAfterSeparator(a, b + [sep] + c, sep);
    assert a + [sep] + b + [sep] + c == a + [sep] + (b + [sep] + c);
  }

  /* ---------------------------------------------------------------------
   * decimal text of an integer
   * ------------------------------------------------------------------- */

  predicate IsDigit(c: char) {
    '0' <= c <= '9'
  }

  function DigitChar(d: nat): (c: char)
    requires d < 10
    ensures IsDigit(c) && c as int - '0' as int == d
  {
    (('0' as int) + d) as char
  }

  /** The decimal digits of `n`, most significant first, without leading zeros. */
  function NatText(n: nat): (s: string)
    ensures |s| >= 1
    ensures forall i :: 0 <= i < |s| ==> IsDigit(s[i])
    ensures s[0] == '0' <==> n == 0
    decreases n
  {
    if n < 10 then [DigitChar(n)] else NatText(n / 10) + [DigitChar(n % 10)]
  }

  /** `String(i)` for an integer `i`. */
  function IntText(i: int): (s: string)
    ensures |s| >= 1
    ensures s[0] == '-' || IsDigit(s[0])
    ensures forall k :: 1 <= k < |s| ==> IsDigit(s[k])
    ensures s[0] == '-' <==> i < 0
    ensures s[0] == '-' ==> |s| >= 2 && s[1] != '0'
    ensures s[0] != '-' && |s| > 1 ==> s[0] != '0'
  {
    if i < 0 then "-" + NatText(-i) else NatText(i)
  }

  function DigitValue(c: char): (d: nat)
    requires IsDigit(c)
    ensures d < 10
  {
    c as int - '0' as int
  }

  /** Reads a string of decimal digits back as a number. */
  function ParseNat(s: string): nat
    requires forall i :: 0 <= i < |s| ==> IsDigit(s[i])
    decreases |s|
  {
    if s == [] then 0
    else ParseNat(s[..|s| - 1]) * 10 + DigitValue(s[|s| - 1])
  }

  function ParseInt(s: string): int
    requires |s| >= 1
    requires s[0] == '-' || IsDigit(s[0])
    requires forall i :: 1 <= i < |s| ==> IsDigit(s[i])
  {
    if s[0] == '-' then -(ParseNat(s[1..]) as int) else ParseNat(s)
  }

  lemma {:induction false} NatTextRoundTrip(n: nat)
    ensures ParseNat(NatText(n)) == n
    decreases n
  {
    if n >= 10 {
      NatTextRoundTrip(n / 10);
      var s := NatText(n);
      assert s[..|s| - 1] == NatText(n / 10);
    }
  }

  /** The decimal text of an integer reads back as that integer. */
  lemma IntTextRoundTrip(i: int)
    ensures ParseInt(IntText(i)) == i
  {
    if i < 0 {
      NatTextRoundTrip(-i);
      assert IntText(i)[1..] == NatText(-i);
    } else {
      NatTextRoundTrip(i);
    }
  }
}
