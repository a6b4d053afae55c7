/**
  String primitives the source takes from JavaScript: `split` and `join` on a
  one-character separator, `startsWith`, and the decimal rendering of integers
  inside template strings.
 */
module Text {

  /** Index of the first occurrence of `c` in `s`. */
  function IndexOf(s: string, c: char): (i: nat)
    requires c in s
    ensures i < |s| && s[i] == c
    ensures c !in s[..i]
    decreases |s|
  {
    if s[0] == c then 0
    else
      assert c in s[1..] by {
        var k :| 0 <= k < |s| && s[k] == c;
        assert s[1..][k - 1] == c;
      }
      var j := IndexOf(s[1..], c);
      assert s[..j + 1] == [s[0]] + s[1..][..j];
      j + 1
  }

  /** `s.split(sep)`: the pieces between separators; the empty string gives `[""]`. */
  function Split(s: string, sep: char): (parts: seq<string>)
    ensures |parts| >= 1
    ensures forall i :: 0 <= i < |parts| ==> sep !in parts[i]
    decreases |s|
  {
    if sep in s then
      var i := IndexOf(s, sep);
      [s[..i]] + Split(s[i + 1..], sep)
    else
      [s]
  }

  /** A string without the separator splits into itself alone. */
  lemma SplitWithoutSeparator(s: string, sep: char)
    requires sep !in s
    ensures Split(s, sep) == [s]
  {
  }

  /** `parts.join(sep)`: the pieces with one separator between neighbours. */
  function Join(parts: seq<string>, sep: char): string
  {
    if |parts| == 0 then ""
    else if |parts| == 1 then parts[0]
    else parts[0] + [sep] + Join(parts[1..], sep)
  }

  /** Joining the pieces of a split restores the original string. */
  lemma {:induction false} JoinSplit(s: string, sep: char)
    ensures Join(Split(s, sep), sep) == s
    decreases |s|
  {
    if sep in s {
      var i := IndexOf(s, sep);
      var rest := Split(s[i + 1..], sep);
      JoinSplit(s[i + 1..], sep);
      assert Split(s, sep) == [s[..i]] + rest;
      assert ([s[..i]] + rest)[1..] == rest;
      assert s == s[..i] + [sep] + s[i + 1..];
    }
  }

  /** A split cuts at the first separator: the piece before it, then the split of the rest. */
  lemma SplitAt(s: string, sep: char, i: nat)
    requires i < |s| && s[i] == sep && sep !in s[..i]
    ensures Split(s, sep) == [s[..i]] + Split(s[i + 1..], sep)
  {
  }

  /** Splitting at a separator splits the two sides independently. */
  lemma {:induction false} SplitConcat(a: string, sep: char, b: string)
    ensures Split(a + [sep] + b, sep) == Split(a, sep) + Split(b, sep)
    decreases |a|
  {
    if sep in a {
      var i := IndexOf(a, sep);
      var x, r := a[..i], a[i + 1..];
      assert a == x + [sep] + r;
      SplitConcat(r, sep, b);
      SplitConcatStep(x, r, sep, b);
    } else {
      SplitAfterFirst(a, sep, b);
      SplitWithoutSeparator(a, sep);
    }
  }

  /** The inductive step of `SplitConcat`: a first piece `x` without the separator stays first. */
  lemma SplitConcatStep(x: string, r: string, sep: char, b: string)
    requires sep !in x
    requires Split(r + [sep] + b, sep) == Split(r, sep) + Split(b, sep)
    ensures Split(x + [sep] + r + [sep] + b, sep) == Split(x + [sep] + r, sep) + Split(b, sep)
  {
    var t := r + [sep] + b;
    assert x + [sep] + t == x + [sep] + r + [sep] + b;
    SplitAfterFirst(x, sep, t);
    SplitAfterFirst(x, sep, r);
    ConsAppend(x, Split(r, sep), Split(b, sep));
  }

  /** When `x` has no separator, the split of `x + [sep] + t` is `x` followed by the split of `t`. */
  lemma SplitAfterFirst(x: string, sep: char, t: string)
    requires sep !in x
    ensures Split(x + [sep] + t, sep) == [x] + Split(t, sep)
  {
    var s := x + [sep] + t;
    assert s[..|x|] == x;
    assert s[|x| + 1..] == t;
    SplitAt(s, sep, |x|);
  }

  /** Concatenation after a one-element prefix regroups. */
  lemma ConsAppend<T>(x: T, p: seq<T>, q: seq<T>)
    ensures [x] + (p + q) == [x] + p + q
  {
  }

  /** Splitting a join of separator-free pieces gives the pieces back. */
  lemma {:induction false} SplitJoin(parts: seq<string>, sep: char)
    requires |parts| >= 1
    requires forall i :: 0 <= i < |parts| ==> sep !in parts[i]
    ensures Split(Join(parts, sep), sep) == parts
  {
    if |parts| > 1 {
      var rest := Join(parts[1..], sep);
      SplitJoin(parts[1..], sep);
      SplitConcat(parts[0], sep, rest);
      assert [parts[0]] + parts[1..] == parts;
    }
  }

  /** Two pieces without the separator, joined by it, split back into the two. */
  lemma SplitTwoPieces(a: string, b: string, sep: char)
    requires sep !in a && sep !in b
    ensures Split(a + [sep] + b, sep) == [a, b]
  {
    SplitConcat(a, sep, b);
    SplitWithoutSeparator(a, sep);
    SplitWithoutSeparator(b, sep);
  }

  /** Three pieces without the separator, joined by it, split back into the three. */
  lemma SplitThreePieces(a: string, b: string, c: string, sep: char)
    requires sep !in a && sep !in b && sep !in c
    ensures Split(a + [sep] + b + [sep] + c, sep) == [a, b, c]
  {
    SplitConcat(a + [sep] + b, sep, c);
    SplitTwoPieces(a, b, sep);
    SplitWithoutSeparator(c, sep);
  }

  /** Four pieces without the separator, joined by it, split back into the four. */
  lemma SplitFourPieces(a: string, b: string, c: string, d: string, sep: char)
    requires sep !in a && sep !in b && sep !in c && sep !in d
    ensures Split(a + [sep] + b + [sep] + c + [sep] + d, sep) == [a, b, c, d]
  {
    SplitConcat(a + [sep] + b + [sep] + c, sep, d);
    SplitThreePieces(a, b, c, sep);
    SplitWithoutSeparator(d, sep);
  }

  /** Joining a concatenation puts one separator between the two joins. */
  lemma {:induction false} JoinConcat(a: seq<string>, b: seq<string>, sep: char)
    requires |a| >= 1 && |b| >= 1
    ensures Join(a + b, sep) == Join(a, sep) + [sep] + Join(b, sep)
  {
    if |a| > 1 {
      JoinConcat(a[1..], b, sep);
      assert (a + b)[1..] == a[1..] + b;
    } else {
      assert (a + b)[1..] == b;
    }
  }

  /** `s.startsWith(prefix)`, compared character by character. */
  function StartsWith(s: string, prefix: string): (b: bool)
    ensures b <==> prefix <= s
    decreases |prefix|
  {
    if |prefix| == 0 then true
    else if |s| == 0 then false
    else
      assert prefix <= s <==> s[0] == prefix[0] && prefix[1..] <= s[1..] by {
        if prefix <= s {
          assert prefix[1..] == s[1..][..|prefix| - 1];
        }
        if s[0] == prefix[0] && prefix[1..] <= s[1..] {
          assert prefix == [s[0]] + prefix[1..];
          assert s[..|prefix|] == [s[0]] + s[1..][..|prefix| - 1];
        }
      }
      s[0] == prefix[0] && StartsWith(s[1..], prefix[1..])
  }

  /** A string is a prefix of itself extended twice. */
  lemma PrefixOfLonger(y: string, a: string, b: string)
    ensures y <= y + a + b
  {
    assert y + a + b == y + (a + b);
  }

  /** A common head keeps one string a prefix of another. */
  lemma PrefixUnder(h: string, y: string, t: string)
    requires y <= t
    ensures h + y <= h + t
  {
    assert (h + t)[..|h + y|] == h + t[..|y|];
  }

  /** The decimal digit for `d`. */
  function DigitChar(d: nat): (c: char)
    requires d < 10
    ensures '0' <= c <= '9' && c as int - '0' as int == d
  {
    (d + '0' as int) as char
  }

  predicate IsDigits(s: string)
  {
    forall i :: 0 <= i < |s| ==> '0' <= s[i] <= '9'
  }

  /** The number a string of decimal digits denotes. */
  function DigitsValue(s: string): nat
    requires IsDigits(s)
  {
    if |s| == 0 then 0
    else DigitsValue(s[..|s| - 1]) * 10 + (s[|s| - 1] as int - '0' as int)
  }

  /** `${n}` for a non-negative integer: its decimal digits, without leading zeros. */
  function NatToString(n: nat): (s: string)
    ensures |s| >= 1 && IsDigits(s)
    ensures s[0] == '0' <==> n == 0
    decreases n
  {
    if n < 10 then [DigitChar(n)]
    else NatToString(n / 10) + [DigitChar(n % 10)]
  }

  /** `${n}` for an integer: a minus sign before the digits of a negative number. */
  function IntToString(n: int): (s: string)
    ensures |s| >= 1
    ensures s[0] == '-' <==> n < 0
    ensures forall i :: 0 <= i < |s| ==> s[i] == '-' || '0' <= s[i] <= '9'
    ensures n >= 0 ==> IsDigits(s) && DigitsValue(s) == n
    ensures n < 0 ==> IsDigits(s[1..]) && DigitsValue(s[1..]) == -n
    ensures n >= 0 ==> (s[0] == '0' ==> |s| == 1)
    ensures n < 0 ==> |s| >= 2 && s[1] != '0'
  {
    if n < 0 then
      NatToStringValue(-n);
      var digits := NatToString(-n);
      assert ("-" + digits)[1..] == digits;
      "-" + digits
    else
      NatToStringValue(n);
      NatToString(n)
  }

  /** Rendering a number and reading its digits back gives the number. */
  lemma {:induction false} NatToStringValue(n: nat)
    ensures DigitsValue(NatToString(n)) == n
    decreases n
  {
    var s := NatToString(n);
    if n >= 10 {
      NatToStringValue(n / 10);
      assert s[..|s| - 1] == NatToString(n / 10);
    }
  }
}
